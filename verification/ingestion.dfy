/**
 * Ingestion decisions: which entries of the knowledge folder reach a
 * format loader (`load_docs`), and whether the vector index is opened as
 * is, extended, or built afresh (`build_or_update_vectorstore`).
 */
module Ingestion {
  import opened Wrappers

  /** A loaded document (or a chunk of one): its origin and its text. */
  datatype Document = Document(source: string, pageContent: string)

  /** One name returned by listing the knowledge folder; `isFile` is the regular-file test. */
  datatype Entry = Entry(name: string, isFile: bool)

  /** The three format loaders. */
  datatype Loader = TextLoader | PyPdfLoader | Docx2txtLoader

  /** What one loader call produced: its documents, or an exception. */
  datatype LoadOutcome = Loaded(docs: seq<Document>) | LoadFailed {
    /** The documents kept from this outcome: none when the load raised. */
    function Kept(): seq<Document> {
      if Loaded? then docs else []
    }
  }

  /** Index of the last '.' in `s`, or -1 when there is none. */
  function LastDot(s: string): (d: int)
    ensures -1 <= d < |s|
    ensures d >= 0 ==> s[d] == '.'
    ensures forall i :: d < i < |s| ==> s[i] != '.'
  {
    if |s| == 0 then -1
    else if s[|s| - 1] == '.' then |s| - 1
    else LastDot(s[..|s| - 1])
  }

  /** Every character of `s` is a dot. */
  predicate AllDots(s: string) {
    s == [] || (s[0] == '.' && AllDots(s[1..]))
  }

  /**
   * The extension `os.path.splitext` gives a file name: from the last dot
   * on, unless everything before that dot is dots (".bashrc" has none).
   */
  function Extension(name: string): string {
    var d := LastDot(name);
    if d >= 0 && !AllDots(name[..d]) then name[d..] else ""
  }

  /**
   * A non-empty extension is a dot-led suffix of the name with no other dot,
   * preceded by some character other than a dot; the extension is empty
   * exactly when every dot of the name is preceded by dots only.
   */
  lemma ExtensionSpec(name: string)
    ensures var ext := Extension(name);
      ext != [] ==>
        && ext[0] == '.' && |ext| <= |name|
        && ext == name[|name| - |ext|..]
        && (forall i :: 1 <= i < |ext| ==> ext[i] != '.')
        && (exists i :: 0 <= i < |name| - |ext| && name[i] != '.')
    ensures Extension(name) == [] <==>
      forall j, i :: 0 <= i < j < |name| && name[j] == '.' ==> name[i] == '.'
  {
    var d := LastDot(name);
    var ext := Extension(name);
    if d >= 0 {
      AllDotsSpec(name[..d]);
    }
    if ext != [] {
      assert ext == name[d..];
      assert forall i :: 1 <= i < |ext| ==> ext[i] == name[d + i];
      var k :| 0 <= k < d && name[..d][k] != '.';
      assert name[k] != '.' && name[d] == '.';
    } else if d >= 0 {
      forall j, i | 0 <= i < j < |name| && name[j] == '.'
        ensures name[i] == '.'
      {
        assert j <= d;
        assert name[..d][i] == name[i] || i == d;
      }
    }
  }

  lemma {:induction false} AllDotsSpec(s: string)
    ensures AllDots(s) <==> forall i :: 0 <= i < |s| ==> s[i] == '.'
  {
    if s != [] {
      AllDotsSpec(s[1..]);
      assert forall i :: 1 <= i < |s| ==> s[i] == s[1..][i - 1];
    }
  }

  /** ASCII upper case to lower case; every other character is kept. */
  function LowerChar(c: char): char {
    if 'A' <= c <= 'Z' then (c as int - 'A' as int + 'a' as int) as char else c
  }

  /** `str.lower()` restricted to ASCII letters. */
  function Lower(s: string): string {
    seq(|s|, i requires 0 <= i < |s| => LowerChar(s[i]))
  }

  /** The extension, in lower case, that each loader is chosen for. */
  function Suffix(l: Loader): string {
    match l
    case TextLoader => ".txt"
    case PyPdfLoader => ".pdf"
    case Docx2txtLoader => ".docx"
  }

  /** The loader chosen for a file name by its lower-cased extension, if any. */
  function LoaderFor(name: string): Option<Loader> {
    var ext := Lower(Extension(name));
    if ext == ".txt" then Some(TextLoader)
    else if ext == ".pdf" then Some(PyPdfLoader)
    else if ext == ".docx" then Some(Docx2txtLoader)
    else None
  }

  lemma LowerKeepsDots(s: string)
    ensures forall i :: 0 <= i < |s| ==> (Lower(s)[i] == '.' <==> s[i] == '.')
  {
  }

  /** A dot with no dot after it is the last dot. */
  lemma LastDotAt(s: string, d: nat)
    requires d < |s| && s[d] == '.'
    requires forall j :: d < j < |s| ==> s[j] != '.'
    ensures LastDot(s) == d
  {
  }

  /** A dot-led tail without further dots, after some non-dot character, is the extension. */
  lemma ExtensionOfTail(name: string, k: nat)
    requires 1 <= k <= |name| && name[|name| - k] == '.'
    requires forall j :: |name| - k < j < |name| ==> name[j] != '.'
    requires exists i :: 0 <= i < |name| - k && name[i] != '.'
    ensures Extension(name) == name[|name| - k..]
  {
    var d := |name| - k;
    LastDotAt(name, d);
    AllDotsSpec(name[..d]);
    var i :| 0 <= i < d && name[i] != '.';
    assert name[..d][i] != '.';
  }

  /**
   * A file goes to loader `l` only when its name ends in that loader's
   * extension, in any mix of upper and lower case, after at least one
   * character that is not a dot.
   */
  lemma LoaderForSound(name: string, l: Loader)
    requires LoaderFor(name) == Some(l)
    ensures |Suffix(l)| <= |name|
    ensures Lower(name[|name| - |Suffix(l)|..]) == Suffix(l)
    ensures exists i :: 0 <= i < |name| - |Suffix(l)| && name[i] != '.'
  {
    ExtensionSpec(name);
    var ext := Extension(name);
    assert Lower(ext) == Suffix(l);
    assert |ext| == |Suffix(l)|;
  }

  /** Conversely, every such name goes to loader `l`. */
  lemma LoaderForComplete(name: string, l: Loader)
    requires |Suffix(l)| <= |name|
    requires Lower(name[|name| - |Suffix(l)|..]) == Suffix(l)
    requires exists i :: 0 <= i < |name| - |Suffix(l)| && name[i] != '.'
    ensures LoaderFor(name) == Some(l)
  {
    var k := |Suffix(l)|;
    var t := name[|name| - k..];
    LowerKeepsDots(t);
    assert Lower(t)[0] == Suffix(l)[0] == '.';
    forall j | |name| - k < j < |name|
      ensures name[j] != '.'
    {
      assert name[j] == t[j - (|name| - k)];
      assert Lower(t)[j - (|name| - k)] == Suffix(l)[j - (|name| - k)] != '.';
    }
    ExtensionOfTail(name, k);
  }

  /**
   * How a file name is routed to a loader. The system routes by `LoaderFor`;
   * the facts about collecting hold for any routing.
   */
  type Router = string -> Option<Loader>

  /** An entry reaches a loader: it is a regular file with a supported extension. */
  predicate Accepted(e: Entry, route: Router) {
    e.isFile && route(e.name).Some?
  }

  /** The entries that reach a loader, in listing order. */
  function Selected(listing: seq<Entry>, route: Router): seq<Entry> {
    if listing == [] then []
    else
      var e := listing[|listing| - 1];
      Selected(listing[..|listing| - 1], route) + (if Accepted(e, route) then [e] else [])
  }

  /** The names of `entries`, in order. */
  function Names(entries: seq<Entry>): (r: seq<string>)
    ensures |r| == |entries|
    ensures forall k :: 0 <= k < |entries| ==> r[k] == entries[k].name
  {
    if entries == [] then [] else Names(entries[..|entries| - 1]) + [entries[|entries| - 1].name]
  }

  /** The selected entries are exactly the accepted entries of the listing. */
  lemma {:induction false} SelectedSpec(listing: seq<Entry>, route: Router)
    ensures |Selected(listing, route)| <= |listing|
    ensures forall e :: e in Selected(listing, route) <==> e in listing && Accepted(e, route)
  {
    if listing != [] {
      var pre := listing[..|listing| - 1];
      SelectedSpec(pre, route);
      assert listing == pre + [listing[|listing| - 1]];
    }
  }

  /** The documents one entry adds to the result: nothing when skipped or when its load raised. */
  function Contribution(e: Entry, route: Router, load: (Loader, string) -> LoadOutcome): seq<Document> {
    if Accepted(e, route) then load(route(e.name).value, e.name).Kept() else []
  }

  /** All documents loaded from `listing`, in listing order. */
  function Collected(listing: seq<Entry>, route: Router, load: (Loader, string) -> LoadOutcome): seq<Document> {
    if listing == [] then []
    else Collected(listing[..|listing| - 1], route, load) + Contribution(listing[|listing| - 1], route, load)
  }

  /** Collecting over a concatenated listing is collecting over each part. */
  lemma {:induction false} CollectedAppend(a: seq<Entry>, b: seq<Entry>, route: Router, load: (Loader, string) -> LoadOutcome)
    ensures Collected(a + b, route, load) == Collected(a, route, load) + Collected(b, route, load)
    decreases |b|
  {
    if b == [] {
      assert a + b == a;
    } else {
      var b' := b[..|b| - 1];
      assert (a + b)[..|a + b| - 1] == a + b';
      assert (a + b)[|a + b| - 1] == b[|b| - 1];
      CollectedAppend(a, b', route, load);
    }
  }

  lemma CollectedSnoc(listing: seq<Entry>, x: Entry, route: Router, load: (Loader, string) -> LoadOutcome)
    ensures Collected(listing + [x], route, load) == Collected(listing, route, load) + Contribution(x, route, load)
  {
    assert (listing + [x])[..|listing|] == listing;
  }

  /** One more entry of the listing adds its contribution at the end. */
  lemma CollectedStep(listing: seq<Entry>, i: nat, route: Router, load: (Loader, string) -> LoadOutcome)
    requires i < |listing|
    ensures Collected(listing[..i + 1], route, load) == Collected(listing[..i], route, load) + Contribution(listing[i], route, load)
    ensures Names(Selected(listing[..i + 1], route))
         == Names(Selected(listing[..i], route)) + (if Accepted(listing[i], route) then [listing[i].name] else [])
  {
    assert listing[..i + 1][..i] == listing[..i];
    var sel := Selected(listing[..i], route);
    if Accepted(listing[i], route) {
      assert (sel + [listing[i]])[..|sel|] == sel;
    } else {
      assert sel + [] == sel;
    }
  }

  /** Only an accepted entry whose load returned contributes documents, namely the ones it loaded. */
  lemma ContributionSpec(e: Entry, route: Router, load: (Loader, string) -> LoadOutcome)
    ensures !Accepted(e, route) ==> Contribution(e, route, load) == []
    ensures Accepted(e, route) ==> Contribution(e, route, load) == load(route(e.name).value, e.name).Kept()
  {
  }

  /**
   * A file whose load raises, a directory and an unsupported file each
   * contribute nothing, and the documents of the entries around it are
   * still accumulated, in order.
   */
  lemma SkippedEntryIsolated(before: seq<Entry>, e: Entry, after: seq<Entry>, route: Router, load: (Loader, string) -> LoadOutcome)
    requires !Accepted(e, route) || load(route(e.name).value, e.name).LoadFailed?
    ensures Collected(before + [e] + after, route, load) == Collected(before, route, load) + Collected(after, route, load)
  {
    ContributionSpec(e, route, load);
    CollectedAppend(before + [e], after, route, load);
    CollectedSnoc(before, e, route, load);
  }

  /** Every collected document was produced by loading a selected entry. */
  lemma {:induction false} CollectedFromSelected(listing: seq<Entry>, route: Router, load: (Loader, string) -> LoadOutcome, d: Document)
    requires d in Collected(listing, route, load)
    ensures exists e :: e in Selected(listing, route) && d in Contribution(e, route, load)
  {
    var pre := listing[..|listing| - 1];
    var e := listing[|listing| - 1];
    if d in Collected(pre, route, load) {
      CollectedFromSelected(pre, route, load, d);
      var e' :| e' in Selected(pre, route) && d in Contribution(e', route, load);
      assert e' in Selected(listing, route);
    } else {
      assert d in Contribution(e, route, load);
      ContributionSpec(e, route, load);
      assert e in Selected(listing, route);
    }
  }

  /**
   * `load_docs`: walk the listing in order; skip anything that is not a
   * regular file or has an unsupported extension; hand the rest to their
   * loader; keep the documents of every load that returned and go on past
   * every load that raised. `attempted` names the files handed to a loader.
   */
  method LoadDocs(listing: seq<Entry>, load: (Loader, string) -> LoadOutcome)
    returns (docs: seq<Document>, attempted: seq<string>)
    ensures docs == Collected(listing, LoaderFor, load)
    ensures attempted == Names(Selected(listing, LoaderFor))
  {
    docs, attempted := [], [];
    for i := 0 to |listing|
      invariant docs == Collected(listing[..i], LoaderFor, load)
      invariant attempted == Names(Selected(listing[..i], LoaderFor))
    {
      var e := listing[i];
      CollectedStep(listing, i, LoaderFor, load);
      ContributionSpec(e, LoaderFor, load);
      if !e.isFile {
        continue;
      }
      var loader := LoaderFor(e.name);
      if loader.None? {
        continue;
      }
      attempted := attempted + [e.name];
      var outcome := load(loader.value, e.name);
      if outcome.Loaded? {
        docs := docs + outcome.docs;
      }
    }
    assert listing[..|listing|] == listing;
  }

  /** The index object: the records it serves. */
  datatype Store = Store(records: seq<Document>)

  /** Which branch `build_or_update_vectorstore` takes. */
  datatype IndexAction = OpenExisting | AddIncremental | BuildFresh

  /**
   * No documents: open the persisted index without touching it. Documents
   * and a non-empty persist directory: add to it. Documents and an empty
   * directory: build a new index.
   */
  function ChooseAction(docs: seq<Document>, persistNonEmpty: bool): (a: IndexAction)
    ensures a == OpenExisting <==> docs == []
    ensures a == AddIncremental <==> docs != [] && persistNonEmpty
    ensures a == BuildFresh <==> docs != [] && !persistNonEmpty
  {
    if docs == [] then OpenExisting
    else if persistNonEmpty then AddIncremental
    else BuildFresh
  }

  /**
   * The index returned for loaded `docs`. `persisted` is the persist
   * directory: None when it is empty, otherwise the records stored there.
   * `split` is the chunker.
   */
  function IndexAfter(docs: seq<Document>, split: seq<Document> -> seq<Document>, persisted: Option<seq<Document>>): (s: Store)
    ensures docs == [] ==> s.records == persisted.GetOr([])
    ensures docs != [] && persisted.Some? ==> s.records == persisted.value + split(docs)
    ensures docs != [] && persisted.None? ==> s.records == split(docs)
  {
    match ChooseAction(docs, persisted.Some?)
    case OpenExisting => Store(persisted.GetOr([]))
    case AddIncremental => Store(persisted.value + split(docs))
    case BuildFresh => Store(split(docs))
  }

  /**
   * `build_or_update_vectorstore`: load the folder, then open, extend or
   * build the index. `action` records the branch taken.
   */
  method BuildOrUpdateVectorstore(listing: seq<Entry>, load: (Loader, string) -> LoadOutcome,
                                  split: seq<Document> -> seq<Document>, persisted: Option<seq<Document>>)
    returns (store: Store, action: IndexAction)
    ensures action == ChooseAction(Collected(listing, LoaderFor, load), persisted.Some?)
    ensures store == IndexAfter(Collected(listing, LoaderFor, load), split, persisted)
  {
    var docs, _ := LoadDocs(listing, load);
    if docs == [] {
      action := OpenExisting;
      store := Store(persisted.GetOr([]));
      return;
    }
    var chunks := split(docs);
    if persisted.Some? {
      action := AddIncremental;
      store := Store(persisted.value + chunks);
    } else {
      action := BuildFresh;
      store := Store(chunks);
    }
  }

  /** An empty folder on first run (empty persist directory) yields a valid, empty index. */
  lemma EmptyFirstRunGivesEmptyIndex(listing: seq<Entry>, load: (Loader, string) -> LoadOutcome,
                                     split: seq<Document> -> seq<Document>)
    requires forall k :: 0 <= k < |listing| ==> !Accepted(listing[k], LoaderFor)
    ensures IndexAfter(Collected(listing, LoaderFor, load), split, None).records == []
  {
    NothingAcceptedNothingCollected(listing, LoaderFor, load);
  }

  lemma {:induction false} NothingAcceptedNothingCollected(listing: seq<Entry>, route: Router, load: (Loader, string) -> LoadOutcome)
    requires forall k :: 0 <= k < |listing| ==> !Accepted(listing[k], route)
    ensures Collected(listing, route, load) == []
  {
    if listing != [] {
      NothingAcceptedNothingCollected(listing[..|listing| - 1], route, load);
    }
  }

  /** Records already persisted are never dropped: they stay a prefix of the index. */
  lemma PersistedRecordsKept(docs: seq<Document>, split: seq<Document> -> seq<Document>, persisted: seq<Document>)
    ensures persisted <= IndexAfter(docs, split, Some(persisted)).records
  {
  }

  /**
   * Re-ingesting the same folder onto a non-empty index adds every chunk
   * again: after two runs each chunk of the folder is stored twice more.
   */
  lemma ReingestDuplicates(docs: seq<Document>, split: seq<Document> -> seq<Document>, persisted: seq<Document>)
    requires docs != []
    ensures var once := IndexAfter(docs, split, Some(persisted)).records;
            IndexAfter(docs, split, Some(once)).records == persisted + split(docs) + split(docs)
  {
  }
}
