/**
 * The inverted index of the help engine (help/help_engine.cpp, buildInvertedIndex, indexInMemory,
 * removeDocument, updateDocument and clearIndex).
 *
 * `State` is what the methods of HelpEngine change. The lemmas follow the index through any run of
 * operations: it never misses a posting, and it agrees with a rebuilt one unless a document was
 * indexed again under other words.
 */
module HelpIndex {
  import opened Common
  import opened HelpTokens

  datatype Document = Document(id: string, title: string, content: string, section: string, category: string,
                               tags: seq<string>, lastModified: int)

  function Join(tags: seq<string>): string {
    if tags == [] then ""
    else if |tags| == 1 then tags[0]
    else tags[0] + " " + Join(tags[1..])
  }

  /** The text that is indexed. */
  function Text(doc: Document): string {
    doc.title + " " + doc.content + " " + doc.section + " " + doc.category + " " + Join(doc.tags)
  }

  function StemSet(doc: Document): set<string> {
    set t | t in Stems(Text(doc))
  }

  type Documents = map<string, Document>
  type Postings = map<string, set<string>>

  /** The documents by id, and for every stem the ids of the documents with it. */
  datatype State = State(documents: Documents, postings: Postings)

  predicate Keyed(documents: Documents) {
    forall id :: id in documents ==> documents[id].id == id
  }

  // ---------------------------------------------------------------------------
  // Operations
  // ---------------------------------------------------------------------------

  function Posted(postings: Postings, token: string, id: string): Postings {
    postings[token := (if token in postings then postings[token] else {}) + {id}]
  }

  function PostedAll(postings: Postings, tokens: seq<string>, id: string): Postings {
    if tokens == [] then postings
    else Posted(PostedAll(postings, tokens[..|tokens| - 1], id), tokens[|tokens| - 1], id)
  }

  function Purged(postings: Postings, id: string): Postings {
    map t | t in postings && postings[t] - {id} != {} :: postings[t] - {id}
  }

  datatype Operation = Index(doc: Document) | Remove(id: string) | Update(doc: Document) | Clear

  function Indexed(st: State, doc: Document): State {
    State(st.documents[doc.id := doc], PostedAll(st.postings, Stems(Text(doc)), doc.id))
  }

  function Removed(st: State, id: string): State {
    State(st.documents - {id}, Purged(st.postings, id))
  }

  function Applied(st: State, op: Operation): State {
    match op
    case Index(doc) => Indexed(st, doc)
    case Remove(id) => Removed(st, id)
    case Update(doc) => Indexed(Removed(st, doc.id), doc)
    case Clear => State(map[], map[])
  }

  /** The state after a run that starts with nothing indexed. */
  function Run(ops: seq<Operation>): State {
    if ops == [] then State(map[], map[]) else Applied(Run(ops[..|ops| - 1]), ops[|ops| - 1])
  }

  // ---------------------------------------------------------------------------
  // What the index should be
  // ---------------------------------------------------------------------------

  function AllStems(documents: Documents): set<string> {
    set id, t | id in documents && t in StemSet(documents[id]) :: t
  }

  function IdsWith(documents: Documents, t: string): set<string> {
    set id | id in documents && t in StemSet(documents[id])
  }

  /** The index of the documents, from scratch. */
  function Built(documents: Documents): Postings {
    map t | t in AllStems(documents) :: IdsWith(documents, t)
  }

  predicate Exact(st: State) {
    st.postings == Built(st.documents)
  }

  /** No document is missing from the postings of its stems. */
  predicate Complete(st: State) {
    forall id, t :: id in st.documents && t in StemSet(st.documents[id]) ==> t in st.postings && id in st.postings[t]
  }

  /** No posting set is empty or names a document that is gone. */
  predicate Tidy(st: State) {
    forall t :: t in st.postings ==> st.postings[t] != {} && st.postings[t] <= st.documents.Keys
  }

  // ---------------------------------------------------------------------------
  // Every run
  // ---------------------------------------------------------------------------

  lemma {:induction false} PostedAllMeans(postings: Postings, tokens: seq<string>, id: string)
    ensures forall t :: t in PostedAll(postings, tokens, id) <==> t in postings || t in tokens
    ensures forall t :: t in PostedAll(postings, tokens, id) ==>
              PostedAll(postings, tokens, id)[t]
              == (if t in postings then postings[t] else {}) + (if t in tokens then {id} else {})
  {
    if tokens != [] {
      var front, last := tokens[..|tokens| - 1], tokens[|tokens| - 1];
      PostedAllMeans(postings, front, id);
      assert tokens == front + [last];
    }
  }

  lemma IndexedMeans(st: State, doc: Document)
    ensures forall t :: t in Indexed(st, doc).postings <==> t in st.postings || t in StemSet(doc)
    ensures forall t :: t in Indexed(st, doc).postings ==>
              Indexed(st, doc).postings[t]
              == (if t in st.postings then st.postings[t] else {}) + (if t in StemSet(doc) then {doc.id} else {})
  {
    PostedAllMeans(st.postings, Stems(Text(doc)), doc.id);
  }

  lemma IndexedKeepsOrder(st: State, doc: Document)
    requires Keyed(st.documents) && Complete(st) && Tidy(st)
    ensures var after := Indexed(st, doc); Keyed(after.documents) && Complete(after) && Tidy(after)
  {
    hide StemSet;
    IndexedMeans(st, doc);
    var after := Indexed(st, doc);
    forall t | t in after.postings ensures after.postings[t] != {} && after.postings[t] <= after.documents.Keys {
      if t !in st.postings {
        assert doc.id in after.postings[t];
      }
    }
  }

  lemma RemovedKeepsOrder(st: State, id: string)
    requires Keyed(st.documents) && Complete(st) && Tidy(st)
    ensures var after := Removed(st, id); Keyed(after.documents) && Complete(after) && Tidy(after)
  {
    hide StemSet;
    var after := Removed(st, id);
    forall d, t | d in after.documents && t in StemSet(after.documents[d]) ensures t in after.postings && d in after.postings[t] {
      assert d in st.postings[t] - {id};
    }
  }

  lemma AppliedKeepsOrder(st: State, op: Operation)
    requires Keyed(st.documents) && Complete(st) && Tidy(st)
    ensures var after := Applied(st, op); Keyed(after.documents) && Complete(after) && Tidy(after)
  {
    hide Keyed, Complete, Tidy, Indexed, Removed;
    match op {
      case Index(doc) => IndexedKeepsOrder(st, doc);
      case Remove(id) => RemovedKeepsOrder(st, id);
      case Update(doc) =>
        RemovedKeepsOrder(st, doc.id);
        IndexedKeepsOrder(Removed(st, doc.id), doc);
      case Clear => EmptyIsInOrder();
    }
  }

  lemma EmptyIsInOrder()
    ensures var st := State(map[], map[]); Keyed(st.documents) && Complete(st) && Tidy(st) && Exact(st)
  {
    assert AllStems(map[]) == {};
  }

  /** Whatever is indexed, removed, updated and cleared, no posting is missing, empty or dangling. */
  lemma {:induction false} RunKeepsOrder(ops: seq<Operation>)
    ensures var st := Run(ops); Keyed(st.documents) && Complete(st) && Tidy(st)
  {
    hide Applied;
    if ops == [] {
      EmptyIsInOrder();
    } else {
      RunKeepsOrder(ops[..|ops| - 1]);
      AppliedKeepsOrder(Run(ops[..|ops| - 1]), ops[|ops| - 1]);
    }
  }

  /** What an id was indexed or updated to last, unless it was removed since. */
  function LastIndexed(ops: seq<Operation>, id: string): Option<Document> {
    if ops == [] then None
    else
      var before := LastIndexed(ops[..|ops| - 1], id);
      match ops[|ops| - 1]
      case Index(doc) => if doc.id == id then Some(doc) else before
      case Update(doc) => if doc.id == id then Some(doc) else before
      case Remove(removed) => if removed == id then None else before
      case Clear => None
  }

  /** After any run an id has the document that it was given last. */
  lemma {:induction false} DocumentIsLast(ops: seq<Operation>, id: string)
    ensures (if id in Run(ops).documents then Some(Run(ops).documents[id]) else None) == LastIndexed(ops, id)
  {
    hide PostedAll, Purged, Stems, Text;
    if ops != [] { DocumentIsLast(ops[..|ops| - 1], id); }
  }

  // ---------------------------------------------------------------------------
  // What a document is posted under
  // ---------------------------------------------------------------------------

  lemma {:induction false} StemsOfJoin(tags: seq<string>, t: string)
    ensures t in Stems(Join(tags)) <==> exists i :: 0 <= i < |tags| && t in Stems(tags[i])
  {
    hide Stems;
    if tags == [] {
      NoStems();
    } else if |tags| > 1 {
      StemsPart(tags[0], ' ', Join(tags[1..]));
      StemsOfJoin(tags[1..], t);
      assert forall i :: 0 < i < |tags| ==> tags[i] == tags[1..][i - 1];
    }
  }

  lemma NoStems()
    ensures Stems("") == []
  {
  }

  /** A document has the stems of its fields and tags, and no others. */
  lemma StemSetIsUnion(doc: Document, t: string)
    ensures t in StemSet(doc) <==>
            || t in Stems(doc.title) || t in Stems(doc.content) || t in Stems(doc.section) || t in Stems(doc.category)
            || exists i :: 0 <= i < |doc.tags| && t in Stems(doc.tags[i])
  {
    hide Stems, Join;
    var t1 := doc.title + [' '] + doc.content;
    var t2 := t1 + [' '] + doc.section;
    var t3 := t2 + [' '] + doc.category;
    assert Text(doc) == t3 + [' '] + Join(doc.tags);
    StemsPart(t3, ' ', Join(doc.tags));
    StemsPart(t2, ' ', doc.category);
    StemsPart(t1, ' ', doc.section);
    StemsPart(doc.title, ' ', doc.content);
    StemsOfJoin(doc.tags, t);
  }

  /** Some field or tag holds the word between separators. */
  predicate HoldsWord(doc: Document, w: string) {
    || HasWord(doc.title, w) || HasWord(doc.content, w) || HasWord(doc.section, w) || HasWord(doc.category, w)
    || exists i :: 0 <= i < |doc.tags| && HasWord(doc.tags[i], w)
  }

  lemma HeldWordIsStem(doc: Document, w: string)
    requires IsWord(w) && HoldsWord(doc, w)
    ensures Stem(Lower(w)) in StemSet(doc)
  {
    hide Stem, Stems, HasWord, IsWord, StemSet;
    StemSetIsUnion(doc, Stem(Lower(w)));
    if HasWord(doc.title, w) { WordIsFound(doc.title, w); }
    else if HasWord(doc.content, w) { WordIsFound(doc.content, w); }
    else if HasWord(doc.section, w) { WordIsFound(doc.section, w); }
    else if HasWord(doc.category, w) { WordIsFound(doc.category, w); }
    else {
      var i :| 0 <= i < |doc.tags| && HasWord(doc.tags[i], w);
      WordIsFound(doc.tags[i], w);
    }
  }

  /** After any run, every document is posted under every word it holds. */
  lemma WordIsPosted(ops: seq<Operation>, id: string, w: string)
    requires id in Run(ops).documents && IsWord(w) && HoldsWord(Run(ops).documents[id], w)
    ensures var postings := Run(ops).postings; Stem(Lower(w)) in postings && id in postings[Stem(Lower(w))]
  {
    hide Stem, Run, IsWord, HoldsWord, StemSet;
    RunKeepsOrder(ops);
    HeldWordIsStem(Run(ops).documents[id], w);
  }

  // ---------------------------------------------------------------------------
  // Runs that keep the index exact
  // ---------------------------------------------------------------------------

  /** An exact index has no posting beyond those of the documents. */
  predicate Sound(st: State) {
    forall t, id :: t in st.postings && id in st.postings[t] ==> id in st.documents && t in StemSet(st.documents[id])
  }

  lemma ExactMeans(st: State)
    ensures Exact(st) <==> Complete(st) && Tidy(st) && Sound(st)
  {
    hide StemSet;
    if Exact(st) {
      forall t | t in st.postings ensures st.postings[t] != {} && st.postings[t] <= st.documents.Keys {
        var id :| id in st.documents && t in StemSet(st.documents[id]);
        assert id in IdsWith(st.documents, t);
      }
    }
    if Complete(st) && Tidy(st) && Sound(st) {
      CompleteAndSound(st);
    }
  }

  lemma CompleteAndSound(st: State)
    requires Complete(st) && Tidy(st) && Sound(st)
    ensures Exact(st)
  {
    hide StemSet;
    forall t | t in st.postings ensures t in AllStems(st.documents) && st.postings[t] == IdsWith(st.documents, t) {
      var id :| id in st.postings[t];
      assert t in StemSet(st.documents[id]);
    }
    assert st.postings.Keys == AllStems(st.documents);
  }

  /** Indexing an id again leaves the index exact if and only if no old stem is lost. */
  lemma IndexedIsExactIff(st: State, doc: Document)
    requires Keyed(st.documents) && Exact(st)
    ensures Exact(Indexed(st, doc)) <==> doc.id in st.documents ==> StemSet(st.documents[doc.id]) <= StemSet(doc)
  {
    hide StemSet, Exact, Complete, Tidy, Sound, Indexed;
    ExactMeans(st);
    ExactMeans(Indexed(st, doc));
    IndexedKeepsOrder(st, doc);
    IndexedIsSoundIff(st, doc);
  }

  lemma IndexedIsSoundIff(st: State, doc: Document)
    requires Keyed(st.documents) && Complete(st) && Sound(st)
    ensures Sound(Indexed(st, doc)) <==> doc.id in st.documents ==> StemSet(st.documents[doc.id]) <= StemSet(doc)
  {
    hide StemSet, PostedAll;
    var after := Indexed(st, doc);
    IndexedMeans(st, doc);
    if doc.id in st.documents && !(StemSet(st.documents[doc.id]) <= StemSet(doc)) {
      var t :| t in StemSet(st.documents[doc.id]) && t !in StemSet(doc);
      assert t in st.postings && doc.id in st.postings[t];
      assert doc.id in after.postings[t] && after.documents[doc.id] == doc;
    }
  }

  lemma RemovedIsExact(st: State, id: string)
    requires Keyed(st.documents) && Exact(st)
    ensures Exact(Removed(st, id))
  {
    hide StemSet, Exact;
    ExactMeans(st);
    ExactMeans(Removed(st, id));
    RemovedKeepsOrder(st, id);
  }

  /** Documents are indexed under new ids only, or through an update. */
  predicate Careful(ops: seq<Operation>) {
    forall n :: 0 <= n < |ops| && ops[n].Index? ==> ops[n].doc.id !in Run(ops[..n]).documents
  }

  /** After a careful run the index is the one that would be built from the documents. */
  lemma {:induction false} CarefulRunIsExact(ops: seq<Operation>)
    requires Careful(ops)
    ensures Exact(Run(ops))
  {
    hide Exact, Indexed, Removed, StemSet;
    EmptyIsInOrder();
    if ops != [] {
      var front, op := ops[..|ops| - 1], ops[|ops| - 1];
      var st := Run(front);
      assert forall n :: 0 <= n < |front| ==> front[..n] == ops[..n];
      CarefulRunIsExact(front);
      RunKeepsOrder(front);
      match op {
        case Index(doc) => IndexedIsExactIff(st, doc);
        case Remove(id) => RemovedIsExact(st, id);
        case Update(doc) =>
          RemovedIsExact(st, doc.id);
          RemovedKeyed(st, doc.id);
          IndexedIsExactIff(Removed(st, doc.id), doc);
        case Clear =>
      }
    }
  }

  lemma RemovedKeyed(st: State, id: string)
    requires Keyed(st.documents)
    ensures Keyed(Removed(st, id).documents) && id !in Removed(st, id).documents
  {
  }

  // ---------------------------------------------------------------------------
  // A run that leaves a stale posting
  // ---------------------------------------------------------------------------

  function Titled(title: string): Document {
    Document("manual", title, "", "", "", [], 0)
  }

  lemma TitledText(title: string)
    ensures Text(Titled(title)) == title + "    "
  {
  }

  predicate IsLowerLetter(c: char) {
    'a' <= c <= 'z'
  }

  lemma TwoLettersMatch(text: string)
    requires |text| > 2 && IsLowerLetter(text[0]) && IsLowerLetter(text[1]) && text[2] == ' '
    ensures MatchEnd(text, 0) == 2
  {
    assert RunEnd(text, 2) == 2 && RunEnd(text, 1) == 2;
    assert Boundary(text, 2);
  }

  lemma TwoLetterStem(word: string)
    requires |word| == 2 && IsLowerLetter(word[0]) && IsLowerLetter(word[1])
    ensures word in StemSet(Titled(word))
  {
    hide MatchEnd, Lower, Text;
    TitledText(word);
    var text := word + "    ";
    var lower := Lower(text);
    assert lower[0] == word[0] && lower[1] == word[1] && lower[2] == ' ';
    TwoLettersMatch(lower);
    assert lower[0..2] == word;
    assert Tokens(text)[0] == word;
    ShortStem(word);
    assert Stems(text)[0] == word;
  }

  lemma ShortStem(word: string)
    requires |word| == 2
    ensures Stem(word) == word
  {
  }

  lemma OtherStem(word: string, title: string)
    requires |word| == 2 && IsLowerLetter(word[0]) && |title| == 2 && IsLowerLetter(title[0]) && IsLowerLetter(title[1])
    requires word[0] != title[0] && word[0] != title[1]
    ensures word !in StemSet(Titled(title))
  {
    hide Stems, Text, Contains;
    TitledText(title);
    var text := title + "    ";
    if word in Stems(text) {
      StemIsInText(text, word);
      NotContained(Lower(text), word);
    }
  }

  lemma NotContained(text: string, word: string)
    requires word != "" && word[0] !in text
    ensures !Contains(text, word)
  {
    hide Occurs;
    forall i | 0 <= i <= |text| ensures !Occurs(text, i, word) {
      if Occurs(text, i, word) { OccursAt(text, i, word, 0); }
    }
  }

  lemma RunMore(ops: seq<Operation>, op: Operation)
    ensures Run(ops + [op]) == Applied(Run(ops), op)
  {
    assert (ops + [op])[..|ops|] == ops;
  }

  /** Indexed again under another title, a document is still posted under the old one. */
  lemma StalePosting()
    ensures !Exact(Run([Index(Titled("ab")), Index(Titled("cd"))]))
  {
    hide StemSet, Exact, Indexed;
    var first, second := Index(Titled("ab")), Index(Titled("cd"));
    CarefulRunIsExact([first]);
    RunKeepsOrder([first]);
    FirstDocument(Titled("ab"));
    RunMore([first], second);
    assert [first] + [second] == [first, second];
    IndexedIsExactIff(Run([first]), Titled("cd"));
    TwoLetterStem("ab");
    OtherStem("ab", "cd");
  }

  lemma FirstDocument(doc: Document)
    ensures Run([Index(doc)]).documents == map[doc.id := doc]
  {
    RunMore([], Index(doc));
    assert [] + [Index(doc)] == [Index(doc)];
  }
}
