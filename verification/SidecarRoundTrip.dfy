/**
 The calibration block as the trainer prints it, with arbitrary whitespace wherever JSON allows it and
 arbitrary text around it, and the proof that the scanner reads back exactly what was printed.
*/
module SidecarRoundTrip {
  import opened CalibrationSidecar
  import opened SidecarLaws
  import opened Wrappers

  // ---------------------------------------------------------------- the printed text

  /** After a key: whitespace, colon, whitespace, number, whitespace. */
  datatype Field = Field(w1: string, w2: string, token: string, w3: string) {
    ghost predicate Valid() { AllWs(w1) && AllWs(w2) && NumberToken(token) && AllWs(w3) }
  }

  /** One stage's object, with the whitespace after its brace and after its commas. */
  datatype StageText = StageText(open: string, a: Field, sepA: string, b: Field, sepB: string, t: Field) {
    ghost predicate Valid() { AllWs(open) && a.Valid() && AllWs(sepA) && b.Valid() && AllWs(sepB) && t.Valid() }
  }

  /** Two runs of whitespace around a colon or a comma. */
  datatype Gap = Gap(w1: string, w2: string) {
    ghost predicate Valid() { AllWs(w1) && AllWs(w2) }
  }

  datatype BlockText = BlockText(open: string, g1: Gap, kind: Method, g2: Gap, g3: Gap, stage1: StageText,
                                 g4: Gap, g5: Gap, stage2: StageText, close: string)
  {
    ghost predicate Valid() {
      && AllWs(open) && g1.Valid() && g2.Valid() && g3.Valid() && stage1.Valid()
      && g4.Valid() && g5.Valid() && stage2.Valid() && AllWs(close)
    }
  }

  function NameOf(kind: Method): string {
    match kind
    case NoCalibration => "none"
    case Temperature => "temperature"
    case Platt => "platt"
  }

  function FieldText(f: Field, end: string): string {
    f.w1 + (":" + (f.w2 + (f.token + (f.w3 + end))))
  }

  function StageThen(o: StageText, rest: string): string {
    ("{" + o.open) +
    Entry("a", FieldText(o.a, "," + o.sepA),
    Entry("b", FieldText(o.b, "," + o.sepB),
    Entry("temperature", FieldText(o.t, "}"), rest)))
  }

  function Around(g: Gap, c: string): string {
    g.w1 + (c + g.w2)
  }

  /** The block, followed by `rest`. */
  function BlockThen(c: BlockText, rest: string): string {
    ("{" + c.open) +
    Entry("method", Around(c.g1, ":"),
    Entry(NameOf(c.kind), Around(c.g2, ","),
    Entry("stage1", Around(c.g3, ":"),
    StageThen(c.stage1, Around(c.g4, ",") +
    Entry("stage2", Around(c.g5, ":"),
    StageThen(c.stage2, c.close + ("}" + rest)))))))
  }

  function Document(prefix: string, g: Gap, c: BlockText, suffix: string): string {
    prefix + (Quoted("calibration") + (g.w1 + (":" + (g.w2 + BlockThen(c, suffix)))))
  }

  // ---------------------------------------------------------------- its pieces

  lemma WsIsClean(w: string)
    requires AllWs(w)
    ensures Lacks(w, '"') && Lacks(w, ':') && BraceFree(w)
  {
  }

  lemma FieldIsClean(f: Field, end: string)
    requires f.Valid()
    ensures Lacks(end, '"') ==> Lacks(FieldText(f, end), '"')
    ensures BraceFree(end) ==> BraceFree(FieldText(f, end))
    ensures FieldText(f, end)[|f.w1|] == ':'
  {
    WsIsClean(f.w1);
    WsIsClean(f.w2);
    WsIsClean(f.w3);
  }

  lemma GapIsClean(g: Gap, c: string)
    requires g.Valid() && (c == ":" || c == ",")
    ensures Lacks(Around(g, c), '"') && BraceFree(Around(g, c)) && Around(g, c)[|g.w1|] == c[0]
  {
    WsIsClean(g.w1);
    WsIsClean(g.w2);
  }

  lemma SkipField(q: string, f: Field, end: string, rest: string, key: string)
    requires f.Valid() && Lacks(end, '"') && Lacks(q, '"') && Lacks(key, '"') && Lacks(key, ':') && q != key
    ensures AfterKey(Entry(q, FieldText(f, end), rest), key) == AfterKey(rest, key)
  {
    FieldIsClean(f, end);
    AfterKeySkipsEntry(q, FieldText(f, end), rest, key);
  }

  /** A field's number is read back. */
  lemma ReadField(strtof: Strtof, q: string, f: Field, end: string, rest: string, default: real)
    requires f.Valid() && end != "" && !IsNumberChar(end[0])
    ensures NumberOf(strtof, Entry(q, FieldText(f, end), rest), q, default) == ValueOr(strtof(f.token), default)
  {
    var tail := f.w3 + (end + rest);
    var v := f.w2 + (f.token + tail);
    assert FieldText(f, end) + rest == f.w1 + (":" + v);
    WsIsClean(f.w1);
    AfterKeyHits(q, f.w1, v);
    assert tail[0] == if f.w3 == "" then end[0] else f.w3[0];
    NumberAtToken(strtof, f.w2, f.token, tail);
  }

  function ValueOr(v: Option<real>, default: real): real {
    if v.Some? then v.value else default
  }

  lemma FieldEnds(f: Field, end: string)
    ensures FieldText(f, end) == FieldText(f, "") + end
  {
  }

  lemma PastEntry(q: string, p: string, rest: string, depth: int)
    requires BraceFree(q) && BraceFree(p)
    ensures Past(Entry(q, p, rest), depth) == Past(rest, depth)
  {
    PastSkips(Quoted(q), p + rest, depth);
    PastSkips(p, rest, depth);
  }

  /** Past the opening brace and the whitespace after it. */
  lemma PastOpening(open: string, rest: string, depth: int)
    requires AllWs(open)
    ensures Past(("{" + open) + rest, depth) == Past(rest, depth + 1)
  {
    WsIsClean(open);
    hide Past, BraceFree;
    assert ("{" + open) + rest == "{" + (open + rest);
    PastOpens(open + rest, depth);
    PastSkips(open, rest, depth + 1);
  }

  lemma PastField(q: string, f: Field, sep: string, rest: string, depth: int)
    requires BraceFree(q) && f.Valid() && AllWs(sep)
    ensures Past(Entry(q, FieldText(f, "," + sep), rest), depth) == Past(rest, depth)
  {
    WsIsClean(sep);
    FieldIsClean(f, "," + sep);
    hide Past, Entry, FieldText;
    PastEntry(q, FieldText(f, "," + sep), rest, depth);
  }

  /** The last field closes the object. */
  lemma PastLastField(q: string, f: Field, rest: string, depth: int)
    requires BraceFree(q) && f.Valid()
    ensures Past(Entry(q, FieldText(f, "}"), rest), depth) == if depth == 1 then Some(rest) else Past(rest, depth - 1)
  {
    FieldIsClean(f, "");
    FieldEnds(f, "}");
    assert Entry(q, FieldText(f, "}"), rest) == Entry(q, FieldText(f, ""), "}" + rest);
    hide Past, Entry, FieldText;
    PastEntry(q, FieldText(f, ""), "}" + rest, depth);
    PastCloses(rest, depth);
  }

  /** Scanning a stage's object closes the brace it opens. */
  lemma PastStage(o: StageText, rest: string, depth: nat)
    requires o.Valid()
    ensures Past(StageThen(o, rest), depth) == if depth == 0 then Some(rest) else Past(rest, depth)
  {
    assert BraceFree("a") && BraceFree("b") && BraceFree("temperature");
    hide Past, Entry, FieldText, BraceFree, AllWs;
    var t := Entry("temperature", FieldText(o.t, "}"), rest);
    var b := Entry("b", FieldText(o.b, "," + o.sepB), t);
    PastOpening(o.open, Entry("a", FieldText(o.a, "," + o.sepA), b), depth);
    PastField("a", o.a, o.sepA, b, depth + 1);
    PastField("b", o.b, o.sepB, t, depth + 1);
    PastLastField("temperature", o.t, rest, depth + 1);
  }

  lemma EntrySplits(q: string, p: string, a: string, b: string)
    ensures Entry(q, p, a + b) == Entry(q, p, a) + b
  {
  }

  lemma StageSplits(o: StageText, a: string, b: string)
    ensures StageThen(o, a + b) == StageThen(o, a) + b
  {
    hide Entry;
    var t := Entry("temperature", FieldText(o.t, "}"), a);
    var e := Entry("b", FieldText(o.b, "," + o.sepB), t);
    EntrySplits("temperature", FieldText(o.t, "}"), a, b);
    EntrySplits("b", FieldText(o.b, "," + o.sepB), t, b);
    EntrySplits("a", FieldText(o.a, "," + o.sepA), e, b);
    hide FieldText;
  }

  lemma SkipStage(o: StageText, rest: string, key: string)
    requires o.Valid() && Lacks(key, '"') && Lacks(key, ':') && key != "a" && key != "b" && key != "temperature"
    ensures AfterKey(StageThen(o, rest), key) == AfterKey(rest, key)
  {
    hide AfterKey, Entry, FieldText;
    var t := Entry("temperature", FieldText(o.t, "}"), rest);
    var b := Entry("b", FieldText(o.b, "," + o.sepB), t);
    WsIsClean(o.open);
    WsIsClean(o.sepA);
    WsIsClean(o.sepB);
    AfterKeySkipsPlain("{" + o.open, Entry("a", FieldText(o.a, "," + o.sepA), b), key);
    SkipField("a", o.a, "," + o.sepA, b, key);
    SkipField("b", o.b, "," + o.sepB, t, key);
    SkipField("temperature", o.t, "}", rest, key);
  }

  /** Key lookups that agree read the same number. */
  lemma SameKey(strtof: Strtof, s: string, t: string, key: string, default: real)
    requires AfterKey(s, key) == AfterKey(t, key)
    ensures NumberOf(strtof, s, key, default) == NumberOf(strtof, t, key, default)
  {
  }

  /** All three numbers of a stage are read back. */
  lemma ReadStage(strtof: Strtof, o: StageText, rest: string)
    requires o.Valid()
    ensures NumberOf(strtof, StageThen(o, rest), "a", 1.0) == ValueOr(strtof(o.a.token), 1.0)
    ensures NumberOf(strtof, StageThen(o, rest), "b", 0.0) == ValueOr(strtof(o.b.token), 0.0)
    ensures NumberOf(strtof, StageThen(o, rest), "temperature", 1.0) == ValueOr(strtof(o.t.token), 1.0)
  {
    hide AfterKey, NumberOf, Entry, FieldText;
    var t := Entry("temperature", FieldText(o.t, "}"), rest);
    var b := Entry("b", FieldText(o.b, "," + o.sepB), t);
    var a := Entry("a", FieldText(o.a, "," + o.sepA), b);
    var s := StageThen(o, rest);
    WsIsClean(o.open);
    WsIsClean(o.sepA);
    WsIsClean(o.sepB);
    AfterKeySkipsPlain("{" + o.open, a, "a");
    AfterKeySkipsPlain("{" + o.open, a, "b");
    AfterKeySkipsPlain("{" + o.open, a, "temperature");
    SkipField("a", o.a, "," + o.sepA, b, "b");
    SkipField("a", o.a, "," + o.sepA, b, "temperature");
    SkipField("b", o.b, "," + o.sepB, t, "temperature");
    SameKey(strtof, s, a, "a", 1.0);
    SameKey(strtof, s, b, "b", 0.0);
    SameKey(strtof, s, t, "temperature", 1.0);
    ReadField(strtof, "a", o.a, "," + o.sepA, b, 1.0);
    ReadField(strtof, "b", o.b, "," + o.sepB, t, 0.0);
    ReadField(strtof, "temperature", o.t, "}", rest, 1.0);
  }

  // ---------------------------------------------------------------- the block

  /** What follows the first stage's object. */
  function Second(c: BlockText, rest: string): string {
    Around(c.g4, ",") + Entry("stage2", Around(c.g5, ":"), StageThen(c.stage2, c.close + ("}" + rest)))
  }

  function First(c: BlockText, rest: string): string {
    Entry("stage1", Around(c.g3, ":"), StageThen(c.stage1, Second(c, rest)))
  }

  lemma BlockIs(c: BlockText, rest: string)
    ensures BlockThen(c, rest) ==
            ("{" + c.open) + Entry("method", Around(c.g1, ":"), Entry(NameOf(c.kind), Around(c.g2, ","), First(c, rest)))
  {
  }

  lemma NameIsClean(kind: Method)
    ensures Lacks(NameOf(kind), '"') && BraceFree(NameOf(kind)) && NameOf(kind) != "stage1" && NameOf(kind) != "stage2"
    ensures MethodNamed(NameOf(kind)) == kind
  {
  }

  lemma SkipGap(q: string, g: Gap, c: string, rest: string, key: string)
    requires g.Valid() && (c == ":" || c == ",") && Lacks(q, '"') && Lacks(key, '"') && q != key
    requires Lacks(key, ':') && Lacks(key, ',')
    ensures AfterKey(Entry(q, Around(g, c), rest), key) == AfterKey(rest, key)
  {
    GapIsClean(g, c);
    AfterKeySkipsEntry(q, Around(g, c), rest, key);
  }

  /** Everything the layout says about the pieces of a block. */
  lemma Parts(c: BlockText)
    requires c.Valid()
    ensures AllWs(c.open) && Lacks("{" + c.open, '"') && BraceFree(c.open)
    ensures c.g1.Valid() && c.g2.Valid() && c.g3.Valid() && c.g4.Valid() && c.g5.Valid()
    ensures c.stage1.Valid() && c.stage2.Valid() && AllWs(c.close) && BraceFree(c.close)
    ensures AllWs(c.g1.w1) && AllWs(c.g1.w2) && Lacks(c.g1.w1, ':') && Lacks(c.g1.w2, '"')
  {
    WsIsClean(c.open);
    WsIsClean(c.close);
    WsIsClean(c.g1.w1);
    WsIsClean(c.g1.w2);
  }

  /** The words used as keys contain no punctuation. */
  lemma Words(key: string)
    requires key == "method" || key == "stage1" || key == "stage2"
    ensures Lacks(key, '"') && Lacks(key, ':') && Lacks(key, ',') && BraceFree(key)
    ensures key != "a" && key != "b" && key != "temperature" && key != "none" && key != "platt"
  {
  }

  lemma SkipOpening(c: BlockText, rest: string, key: string)
    requires c.Valid()
    ensures AfterKey(BlockThen(c, rest), key) ==
            AfterKey(Entry("method", Around(c.g1, ":"), Entry(NameOf(c.kind), Around(c.g2, ","), First(c, rest))), key)
  {
    BlockIs(c, rest);
    Parts(c);
    hide *;
    AfterKeySkipsPlain("{" + c.open, Entry("method", Around(c.g1, ":"), Entry(NameOf(c.kind), Around(c.g2, ","), First(c, rest))), key);
  }

  /** From the start of the block to the first stage. */
  lemma ToFirst(c: BlockText, rest: string, key: string)
    requires c.Valid() && (key == "stage1" || key == "stage2")
    ensures AfterKey(BlockThen(c, rest), key) == AfterKey(First(c, rest), key)
  {
    Words("method");
    Words(key);
    NameIsClean(c.kind);
    Parts(c);
    assert key != "method";
    hide *;
    SkipOpening(c, rest, key);
    SkipGap("method", c.g1, ":", Entry(NameOf(c.kind), Around(c.g2, ","), First(c, rest)), key);
    SkipGap(NameOf(c.kind), c.g2, ",", First(c, rest), key);
  }

  /** And on to the second. */
  lemma ToSecond(c: BlockText, rest: string)
    requires c.Valid()
    ensures AfterKey(First(c, rest), "stage2") ==
            AfterKey(Entry("stage2", Around(c.g5, ":"), StageThen(c.stage2, c.close + ("}" + rest))), "stage2")
  {
    hide AfterKey, Entry, StageThen;
    SkipGap("stage1", c.g3, ":", StageThen(c.stage1, Second(c, rest)), "stage2");
    SkipStage(c.stage1, Second(c, rest), "stage2");
    GapIsClean(c.g4, ",");
    AfterKeySkipsPlain(Around(c.g4, ","), Entry("stage2", Around(c.g5, ":"), StageThen(c.stage2, c.close + ("}" + rest))), "stage2");
  }

  /** The object after a key is cut out exactly. */
  lemma ObjectIs(key: string, g: Gap, o: StageText, rest: string)
    requires g.Valid() && o.Valid()
    ensures Object(Entry(key, Around(g, ":"), StageThen(o, rest)), key) == Some(StageThen(o, ""))
  {
    var t := StageThen(o, rest);
    assert t[0] == '{';
    assert Around(g, ":") + t == g.w1 + (":" + (g.w2 + t));
    PastStage(o, rest, 0);
    StageSplits(o, "", rest);
    assert "" + rest == rest;
    hide StageThen;
    WsIsClean(g.w1);
    AfterKeyHits(key, g.w1, g.w2 + t);
    TrimmedSkipsWs(g.w2, t);
    hide AfterKey, Trimmed, Past;
    assert t[..|t| - |rest|] == StageThen(o, "");
  }

  lemma SameObject(s: string, t: string, key: string)
    requires AfterKey(s, key) == AfterKey(t, key)
    ensures Object(s, key) == Object(t, key)
  {
  }

  lemma FirstStageIs(c: BlockText, rest: string)
    requires c.Valid()
    ensures Object(BlockThen(c, rest), "stage1") == Some(StageThen(c.stage1, ""))
  {
    hide AfterKey, StageThen, BlockThen, Object, Entry;
    ToFirst(c, rest, "stage1");
    SameObject(BlockThen(c, rest), First(c, rest), "stage1");
    ObjectIs("stage1", c.g3, c.stage1, Second(c, rest));
  }

  lemma SecondStageIs(c: BlockText, rest: string)
    requires c.Valid()
    ensures Object(BlockThen(c, rest), "stage2") == Some(StageThen(c.stage2, ""))
  {
    hide AfterKey, StageThen, BlockThen, Object, Entry, First;
    ToFirst(c, rest, "stage2");
    ToSecond(c, rest);
    SameObject(BlockThen(c, rest), Entry("stage2", Around(c.g5, ":"), StageThen(c.stage2, c.close + ("}" + rest))), "stage2");
    ObjectIs("stage2", c.g5, c.stage2, c.close + ("}" + rest));
  }

  lemma MethodValueIs(c: BlockText, rest: string)
    requires c.Valid()
    ensures AfterKey(BlockThen(c, rest), "method")
         == Some(c.g1.w2 + Entry(NameOf(c.kind), Around(c.g2, ","), First(c, rest)))
  {
    Parts(c);
    SkipOpening(c, rest, "method");
    hide AfterKey, BlockThen, First, NameOf, AllWs;
    EntryHits("method", c.g1, Entry(NameOf(c.kind), Around(c.g2, ","), First(c, rest)));
  }

  lemma EntryHits(key: string, g: Gap, e: string)
    requires Lacks(g.w1, ':')
    ensures AfterKey(Entry(key, Around(g, ":"), e), key) == Some(g.w2 + e)
  {
    hide AfterKey;
    var v := g.w2 + e;
    assert Around(g, ":") + e == g.w1 + (":" + v);
    AfterKeyHits(key, g.w1, v);
  }

  /** The next quoted string is cut out exactly. */
  lemma MethodReads(cal: string, w: string, name: string, tail: string)
    requires Lacks(w, '"') && Lacks(name, '"')
    requires AfterKey(cal, "method") == Some(w + ("\"" + (name + ("\"" + tail))))
    ensures MethodOf(cal) == MethodNamed(name)
  {
    hide AfterKey, MethodNamed;
    var close := "\"" + tail;
    var open := "\"" + (name + close);
    var v := w + open;
    assert StartsWith(open, "\"") && StartsWith(close, "\"");
    FindSkipsPlain(w, open, "\"");
    assert v[|w| + 1..] == name + close;
    FindSkipsPlain(name, close, "\"");
    assert (name + close)[..|name|] == name;
  }

  lemma MethodIs(c: BlockText, rest: string)
    requires c.Valid()
    ensures MethodOf(BlockThen(c, rest)) == c.kind
  {
    var name, tail := NameOf(c.kind), Around(c.g2, ",") + First(c, rest);
    EntryOpens(name, Around(c.g2, ","), First(c, rest));
    Parts(c);
    NameIsClean(c.kind);
    hide *;
    MethodValueIs(c, rest);
    MethodReads(BlockThen(c, rest), c.g1.w2, name, tail);
  }

  lemma EntryOpens(q: string, p: string, rest: string)
    ensures Entry(q, p, rest) == "\"" + (q + ("\"" + (p + rest)))
  {
  }

  lemma PastGap(q: string, g: Gap, c: string, rest: string, depth: int)
    requires BraceFree(q) && g.Valid() && (c == ":" || c == ",")
    ensures Past(Entry(q, Around(g, c), rest), depth) == Past(rest, depth)
  {
    GapIsClean(g, c);
    hide Past, Entry, Around;
    PastEntry(q, Around(g, c), rest, depth);
  }

  lemma PastSecond(c: BlockText, rest: string)
    requires c.Valid()
    ensures Past(Second(c, rest), 1) == Some(rest)
  {
    var end := c.close + ("}" + rest);
    var e := Entry("stage2", Around(c.g5, ":"), StageThen(c.stage2, end));
    assert Second(c, rest) == Around(c.g4, ",") + e;
    Parts(c);
    Words("stage2");
    GapIsClean(c.g4, ",");
    hide *;
    PastSkips(Around(c.g4, ","), e, 1);
    PastGap("stage2", c.g5, ":", StageThen(c.stage2, end), 1);
    PastStage(c.stage2, end, 1);
    PastSkips(c.close, "}" + rest, 1);
    PastCloses(rest, 1);
  }

  lemma PastFirst(c: BlockText, rest: string)
    requires c.Valid()
    ensures Past(First(c, rest), 1) == Some(rest)
  {
    assert First(c, rest) == Entry("stage1", Around(c.g3, ":"), StageThen(c.stage1, Second(c, rest)));
    hide *;
    Parts(c);
    Words("stage1");
    PastGap("stage1", c.g3, ":", StageThen(c.stage1, Second(c, rest)), 1);
    PastStage(c.stage1, Second(c, rest), 1);
    PastSecond(c, rest);
  }

  /** The method entry, key and name, leaves the nesting as it is. */
  lemma PastMethod(c: BlockText, rest: string)
    requires c.Valid()
    ensures Past(Entry("method", Around(c.g1, ":"), Entry(NameOf(c.kind), Around(c.g2, ","), rest)), 1) == Past(rest, 1)
  {
    hide *;
    Words("method");
    NameIsClean(c.kind);
    Parts(c);
    PastGap("method", c.g1, ":", Entry(NameOf(c.kind), Around(c.g2, ","), rest), 1);
    PastGap(NameOf(c.kind), c.g2, ",", rest, 1);
  }

  lemma PastBlock(c: BlockText, rest: string)
    requires c.Valid()
    ensures Past(BlockThen(c, rest), 0) == Some(rest)
  {
    hide *;
    Parts(c);
    var first := First(c, rest);
    var entries := Entry("method", Around(c.g1, ":"), Entry(NameOf(c.kind), Around(c.g2, ","), first));
    assert BlockThen(c, rest) == ("{" + c.open) + entries by { BlockIs(c, rest); }
    PastOpening(c.open, entries, 0);
    PastMethod(c, first);
    PastFirst(c, rest);
  }

  lemma BlockSplits(c: BlockText, rest: string)
    ensures BlockThen(c, rest) == BlockThen(c, "") + rest
  {
    hide StageThen, Around, Entry, NameOf;
    var end, end0 := c.close + ("}" + rest), c.close + ("}" + "");
    assert end == end0 + rest;
    StageSplits(c.stage2, end0, rest);
    var s2 := StageThen(c.stage2, end0);
    EntrySplits("stage2", Around(c.g5, ":"), s2, rest);
    var x := Second(c, "");
    assert Second(c, rest) == x + rest;
    StageSplits(c.stage1, x, rest);
    EntrySplits("stage1", Around(c.g3, ":"), StageThen(c.stage1, x), rest);
    var f := First(c, "");
    EntrySplits(NameOf(c.kind), Around(c.g2, ","), f, rest);
    EntrySplits("method", Around(c.g1, ":"), Entry(NameOf(c.kind), Around(c.g2, ","), f), rest);
    BlockIs(c, rest);
    BlockIs(c, "");
    hide BlockThen, First, Second;
  }

  // ---------------------------------------------------------------- the document

  /** The printed key is the first occurrence of "calibration" in quotes. */
  ghost predicate FirstThere(prefix: string, doc: string) {
    forall i :: 0 <= i < |prefix| && i <= |doc| ==> !StartsWith(doc[i..], Quoted("calibration"))
  }

  lemma {:induction false} FindAt(prefix: string, t: string, pat: string)
    requires StartsWith(t, pat) && forall i :: 0 <= i < |prefix| ==> !StartsWith((prefix + t)[i..], pat)
    ensures Find(prefix + t, pat) == Some(|prefix|)
  {
    var s := prefix + t;
    if prefix == "" {
      assert s == t;
    } else {
      assert s[0..] == s;
      var p := prefix[1..];
      assert s[1..] == p + t;
      forall i | 0 <= i < |p|
        ensures !StartsWith((p + t)[i..], pat)
      {
        assert (p + t)[i..] == s[i + 1..];
      }
      FindAt(p, t, pat);
    }
  }

  lemma KeyFound(prefix: string, g: Gap, b: string)
    requires g.Valid()
    requires forall i :: 0 <= i < |prefix| ==>
               !StartsWith((prefix + (Quoted("calibration") + (g.w1 + (":" + (g.w2 + b)))))[i..], Quoted("calibration"))
    ensures AfterKey(prefix + (Quoted("calibration") + (g.w1 + (":" + (g.w2 + b)))), "calibration") == Some(g.w2 + b)
  {
    var v := g.w2 + b;
    var t := Quoted("calibration") + (g.w1 + (":" + v));
    WsIsClean(g.w1);
    FindAt(prefix, t, Quoted("calibration"));
    AfterKeyHits("calibration", g.w1, v);
    hide AfterColon, Find;
    assert t[|Quoted("calibration")|..] == g.w1 + (":" + v);
    assert (prefix + t)[|prefix| + |Quoted("calibration")|..] == t[|Quoted("calibration")|..];
    assert StartsWith(t, Quoted("calibration"));
    FindAtStart(t, Quoted("calibration"));
  }

  lemma FindAtStart(t: string, pat: string)
    requires StartsWith(t, pat)
    ensures Find(t, pat) == Some(0)
  {
  }

  lemma BlockObject(w: string, c: BlockText, suffix: string)
    requires AllWs(w) && c.Valid()
    ensures ObjectAt(w + BlockThen(c, suffix)) == Some(BlockThen(c, ""))
    ensures |Trimmed(w + BlockThen(c, suffix))| == |BlockThen(c, "")| + |suffix|
  {
    hide *;
    BlockOpens(c, suffix);
    PastBlock(c, suffix);
    BlockSplits(c, suffix);
    TrimmedSkipsBrace(w, BlockThen(c, suffix));
    ObjectFrom(w + BlockThen(c, suffix), BlockThen(c, suffix), BlockThen(c, ""), suffix);
  }

  lemma TrimmedSkipsBrace(w: string, t: string)
    requires AllWs(w) && t != "" && t[0] == '{'
    ensures Trimmed(w + t) == t
  {
    TrimmedSkipsWs(w, t);
  }

  lemma ObjectFrom(v: string, t: string, obj: string, rest: string)
    requires Trimmed(v) == t && t != "" && t[0] == '{' && Past(t, 0) == Some(rest) && t == obj + rest
    ensures ObjectAt(v) == Some(obj) && |Trimmed(v)| == |obj| + |rest|
  {
    hide Trimmed, Past;
    CutsOff(obj, rest);
  }

  lemma BlockOpens(c: BlockText, rest: string)
    ensures BlockThen(c, rest) != "" && BlockThen(c, rest)[0] == '{'
  {
    BlockIs(c, rest);
    hide BlockThen, Entry, First;
  }

  lemma CutsOff(a: string, b: string)
    ensures (a + b)[..|a + b| - |b|] == a
  {
  }

  lemma BlockFound(prefix: string, g: Gap, c: BlockText, suffix: string)
    requires g.Valid() && c.Valid() && FirstThere(prefix, Document(prefix, g, c, suffix))
    ensures Object(Document(prefix, g, c, suffix), "calibration") == Some(BlockThen(c, ""))
    ensures BlockEnd(Document(prefix, g, c, suffix), "calibration") == |Document(prefix, g, c, suffix)| - |suffix|
  {
    hide BlockThen, AfterKey, ObjectAt, Trimmed, StartsWith;
    KeyFound(prefix, g, BlockThen(c, suffix));
    BlockObject(g.w2, c, suffix);
  }

  /** What was printed: the method and, for each stage, what its number tokens convert to. */
  function Printed(strtof: Strtof, kind: Method, o: StageText): Stage {
    Stage(kind, ValueOr(strtof(o.t.token), 1.0), ValueOr(strtof(o.a.token), 1.0), ValueOr(strtof(o.b.token), 0.0))
  }

  /** Scanning the printed document gives back both stages, whatever the layout and whatever surrounds the block. */
  lemma ParseUndoesPrint(strtof: Strtof, prefix: string, g: Gap, c: BlockText, suffix: string)
    requires g.Valid() && c.Valid() && FirstThere(prefix, Document(prefix, g, c, suffix))
    ensures Parsed(strtof, Document(prefix, g, c, suffix))
         == Sidecar(Printed(strtof, c.kind, c.stage1), Printed(strtof, c.kind, c.stage2))
  {
    hide Document, BlockThen, StageThen, Object, NumberOf, MethodOf, FirstThere;
    BlockFound(prefix, g, c, suffix);
    MethodIs(c, "");
    FirstStageIs(c, "");
    SecondStageIs(c, "");
    ReadStage(strtof, c.stage1, "");
    ReadStage(strtof, c.stage2, "");
  }

  /** And cut off anywhere, the printed document gives back both stages or identity. */
  lemma TruncatedPrintIsAllOrNothing(strtof: Strtof, prefix: string, g: Gap, c: BlockText, suffix: string, n: nat)
    requires g.Valid() && c.Valid() && FirstThere(prefix, Document(prefix, g, c, suffix))
    requires n <= |Document(prefix, g, c, suffix)|
    ensures var full := Sidecar(Printed(strtof, c.kind, c.stage1), Printed(strtof, c.kind, c.stage2));
            var doc := Document(prefix, g, c, suffix);
            Parsed(strtof, doc[..n]) == if n + |suffix| >= |doc| then full else IDENTITY
  {
    hide *;
    var doc := Document(prefix, g, c, suffix);
    ParseUndoesPrint(strtof, prefix, g, c, suffix);
    BlockFound(prefix, g, c, suffix);
    TruncationIsAllOrNothing(strtof, doc, n);
  }
}
