/**
 Laws of the labels.json scanner: cutting the text off anywhere gives all or nothing, and what it finds
 in concatenated text.
*/
module SidecarLaws {
  import opened CalibrationSidecar
  import opened Wrappers

  // ---------------------------------------------------------------- truncation

  lemma {:induction false} FindInShort(t: string, pat: string)
    requires |t| < |pat|
    ensures Find(t, pat) == None
  {
    if t != "" { FindInShort(t[1..], pat); }
  }

  lemma {:induction false} FindTruncated(t: string, pat: string, n: nat)
    requires n <= |t| && pat != ""
    ensures Find(t[..n], pat) ==
            if Find(t, pat).Some? && Find(t, pat).value + |pat| <= n then Find(t, pat) else None
  {
    if n < |pat| {
      FindInShort(t[..n], pat);
    } else {
      assert t[..n][..|pat|] == t[..|pat|];
      if !StartsWith(t, pat) {
        FindTruncated(t[1..], pat, n - 1);
        assert t[..n][1..] == t[1..][..n - 1];
      }
    }
  }

  lemma {:induction false} TrimmedTruncated(v: string, n: nat)
    requires n <= |v|
    ensures Trimmed(v[..n]) == if |v| - |Trimmed(v)| <= n then Trimmed(v)[..n - (|v| - |Trimmed(v)|)] else ""
  {
    if n > 0 && IsWs(v[0]) {
      TrimmedTruncated(v[1..], n - 1);
      assert v[..n][1..] == v[1..][..n - 1];
    } else if n == 0 {
      assert v[..0] == "";
    }
  }

  lemma {:induction false} PastTruncated(t: string, depth: int, n: nat)
    requires n <= |t|
    ensures var p := Past(t, depth);
            Past(t[..n], depth) == if p.Some? && |t| - |p.value| <= n then Some(p.value[..n - (|t| - |p.value|)]) else None
  {
    if n > 0 {
      var d := if t[0] == '{' then depth + 1 else if t[0] == '}' then depth - 1 else depth;
      assert t[..n][1..] == t[1..][..n - 1];
      PastTruncated(t[1..], d, n - 1);
    }
  }

  lemma AfterColonTruncated(r: string, n: nat)
    requires n <= |r|
    ensures AfterColon(r).Some? ==> |AfterColon(r).value| <= |r|
    ensures var v := AfterColon(r);
            AfterColon(r[..n]) == if v.Some? && |r| - |v.value| <= n then Some(v.value[..n - (|r| - |v.value|)]) else None
  {
    FindTruncated(r, ":", n);
    var f := Find(r, ":");
    hide Find;
    if f.Some? && f.value + 1 <= n {
      assert r[..n][f.value + 1..] == r[f.value + 1..][..n - f.value - 1];
    }
  }

  /** Scanning for the colon from an offset on, which the cut may precede. */
  lemma AfterColonFrom(s: string, from: nat, n: nat)
    requires from <= |s| && n <= |s|
    ensures var v := AfterColon(s[from..]);
            && (v.Some? ==> |v.value| <= |s|)
            && (if from <= n then AfterColon(s[..n][from..]) else None)
            == (if v.Some? && |s| - |v.value| <= n then Some(v.value[..n - (|s| - |v.value|)]) else None)
  {
    AfterColonTruncated(s[from..], if from <= n then n - from else 0);
    hide AfterColon;
    if from <= n { assert s[..n][from..] == s[from..][..n - from]; }
  }

  lemma AfterKeyTruncated(s: string, key: string, n: nat)
    requires n <= |s|
    ensures AfterKey(s, key).Some? ==> |AfterKey(s, key).value| <= |s|
    ensures var v := AfterKey(s, key);
            AfterKey(s[..n], key) == if v.Some? && |s| - |v.value| <= n then Some(v.value[..n - (|s| - |v.value|)]) else None
  {
    var pat := Quoted(key);
    assert pat[0] == '"';
    hide Find, AfterColon, Quoted;
    FindTruncated(s, pat, n);
    if Find(s, pat).Some? {
      var from := Find(s, pat).value + |pat|;
      assert AfterKey(s, key) == AfterColon(s[from..]);
      assert AfterKey(s[..n], key) == if from <= n then AfterColon(s[..n][from..]) else None;
      hide AfterKey;
      AfterColonFrom(s, from, n);
    }
  }

  /** How much of v its leading object takes up, whitespace before it included. */
  function ObjectEnd(v: string): nat
    requires ObjectAt(v).Some?
  {
    |v| - |Trimmed(v)| + |ObjectAt(v).value|
  }

  lemma ObjectAtTruncated(v: string, n: nat)
    requires n <= |v|
    ensures ObjectAt(v[..n]) == if ObjectAt(v).Some? && ObjectEnd(v) <= n then ObjectAt(v) else None
  {
    TrimmedTruncated(v, n);
    var t, w := Trimmed(v), |v| - |Trimmed(v)|;
    hide Trimmed;
    if w < n && t[0] == '{' {
      PastTruncated(t, 0, n - w);
      hide Past;
      if Past(t, 0).Some? && |t| - |Past(t, 0).value| <= n - w {
        var e := |t| - |Past(t, 0).value|;
        assert t[..n - w][..e] == t[..e];
      }
    }
  }

  /** Where the value of key's object ends in s. */
  function BlockEnd(s: string, key: string): int
    requires Object(s, key).Some?
  {
    |s| - |AfterKey(s, key).value| + ObjectEnd(AfterKey(s, key).value)
  }

  lemma ObjectTruncated(s: string, key: string, n: nat)
    requires n <= |s|
    ensures Object(s[..n], key) == if Object(s, key).Some? && BlockEnd(s, key) <= n then Object(s, key) else None
  {
    AfterKeyTruncated(s, key, n);
    var v := AfterKey(s, key);
    hide AfterKey;
    if v.Some? && |s| - |v.value| <= n {
      ObjectAtTruncated(v.value, n - (|s| - |v.value|));
    }
    hide ObjectAt;
  }

  /**
   Cutting any text off anywhere: the full result if the calibration object is still complete, and
   identity otherwise. Never a mixture.
  */
  lemma TruncationIsAllOrNothing(strtof: Strtof, s: string, n: nat)
    requires n <= |s|
    ensures Parsed(strtof, s[..n]) ==
            if Object(s, "calibration").Some? && BlockEnd(s, "calibration") <= n then Parsed(strtof, s) else IDENTITY
  {
    ObjectTruncated(s, "calibration", n);
    hide Object, SidecarOf, BlockEnd;
  }

  // ---------------------------------------------------------------- scanning concatenations

  ghost predicate AllWs(w: string) {
    forall i :: 0 <= i < |w| ==> IsWs(w[i])
  }

  ghost predicate Lacks(p: string, c: char) {
    c !in p
  }

  lemma {:induction false} FindSkipsPlain(p: string, rest: string, pat: string)
    requires pat != "" && Lacks(p, pat[0])
    ensures Find(p + rest, pat) == var r := Find(rest, pat); if r.Some? then Some(r.value + |p|) else None
  {
    if p == "" {
      assert p + rest == rest;
    } else {
      FindSkipsPlain(p[1..], rest, pat);
      assert (p + rest)[1..] == p[1..] + rest;
      assert (p + rest)[0] == p[0];
    }
  }

  lemma AfterKeySkipsPlain(p: string, rest: string, key: string)
    requires Lacks(p, '"')
    ensures AfterKey(p + rest, key) == AfterKey(rest, key)
  {
    FindSkipsPlain(p, rest, Quoted(key));
    var r := Find(rest, Quoted(key));
    hide Find;
    if r.Some? {
      var k := r.value + |Quoted(key)|;
      assert (p + rest)[|p| + k..] == rest[k..];
    }
  }

  /** A quoted string, the text up to the next quote, and what follows. */
  function Entry(q: string, p: string, rest: string): string {
    Quoted(q) + (p + rest)
  }

  lemma Differs(t: string, pat: string, i: nat)
    requires i < |pat| && (i < |t| ==> t[i] != pat[i])
    ensures !StartsWith(t, pat)
  {
    if i < |t| { assert |pat| <= |t| ==> t[..|pat|][i] == t[i]; }
  }

  /** Not at the opening quote of another string, */
  lemma NotAtOpening(q: string, rest: string, key: string)
    requires Lacks(q, '"') && Lacks(key, '"') && q != key
    ensures !StartsWith(Quoted(q) + rest, Quoted(key))
  {
    var i := if |q| < |key| then |q| else if |q| > |key| then |key| else FirstDifference(q, key);
    Differs(Quoted(q) + rest, Quoted(key), i + 1);
  }

  function FirstDifference(a: string, b: string): (i: nat)
    requires |a| == |b| && a != b
    ensures i < |a| && a[i] != b[i]
  {
    if a[0] != b[0] then 0 else FirstDifference(a[1..], b[1..]) + 1
  }

  /** nor at its closing one, when the text up to the next quote is no key either. */
  lemma NotAtClosing(p: string, rest: string, key: string, i: nat)
    requires Lacks(p, '"') && Lacks(key, '"') && i < |p| && Lacks(key, p[i])
    ensures !StartsWith("\"" + (p + rest), Quoted(key))
  {
    Differs("\"" + (p + rest), Quoted(key), 1 + if i < |key| then i else |key|);
  }

  /** The key is not found across or inside another quoted string. */
  lemma AfterKeySkipsEntry(q: string, p: string, rest: string, key: string)
    requires Lacks(q, '"') && Lacks(p, '"') && Lacks(key, '"') && q != key
    requires exists i :: 0 <= i < |p| && Lacks(key, p[i])
    ensures AfterKey(Entry(q, p, rest), key) == AfterKey(rest, key)
  {
    var t, tail := Entry(q, p, rest), "\"" + (p + rest);
    var i :| 0 <= i < |p| && Lacks(key, p[i]);
    NotAtOpening(q, p + rest, key);
    NotAtClosing(p, rest, key, i);
    hide AfterKey, StartsWith;
    assert t[1..] == q + tail;
    AfterKeySkipsOne(t, key);
    AfterKeySkipsPlain(q, tail, key);
    AfterKeySkipsOne(tail, key);
    assert tail[1..] == p + rest;
    AfterKeySkipsPlain(p, rest, key);
  }

  lemma AfterKeySkipsOne(t: string, key: string)
    requires t != "" && !StartsWith(t, Quoted(key))
    ensures AfterKey(t, key) == AfterKey(t[1..], key)
  {
    var r := Find(t[1..], Quoted(key));
    assert Find(t, Quoted(key)) == if r.Some? then Some(r.value + 1) else None;
    hide Find;
    if r.Some? {
      var k := r.value + |Quoted(key)|;
      assert t[k + 1..] == t[1..][k..];
    }
  }

  /** The key is found, and its value is what follows the colon. */
  lemma AfterKeyHits(key: string, w: string, v: string)
    requires Lacks(w, ':')
    ensures AfterKey(Quoted(key) + (w + (":" + v)), key) == Some(v)
  {
    var t, r := Quoted(key) + (w + (":" + v)), w + (":" + v);
    assert StartsWith(t, Quoted(key));
    assert t[|Quoted(key)|..] == r;
    FindSkipsPlain(w, ":" + v, ":");
    assert StartsWith(":" + v, ":");
    assert r[|w| + 1..] == v;
  }

  lemma {:induction false} TrimmedSkipsWs(w: string, t: string)
    requires AllWs(w) && t != "" && !IsWs(t[0])
    ensures Trimmed(w + t) == t
  {
    if w == "" {
      assert w + t == t;
    } else {
      TrimmedSkipsWs(w[1..], t);
      assert (w + t)[0] == w[0] && (w + t)[1..] == w[1..] + t;
    }
  }

  ghost predicate NumberToken(tok: string) {
    tok != "" && forall i :: 0 <= i < |tok| ==> IsNumberChar(tok[i])
  }

  lemma {:induction false} NumberLenOf(tok: string, rest: string)
    requires forall i :: 0 <= i < |tok| ==> IsNumberChar(tok[i])
    requires rest == "" || !IsNumberChar(rest[0])
    ensures NumberLen(tok + rest) == |tok|
  {
    if tok == "" {
      assert tok + rest == rest;
    } else {
      NumberLenOf(tok[1..], rest);
      assert (tok + rest)[0] == tok[0] && (tok + rest)[1..] == tok[1..] + rest;
    }
  }

  lemma NumberAtToken(strtof: Strtof, w: string, tok: string, rest: string)
    requires AllWs(w) && NumberToken(tok) && (rest == "" || !IsNumberChar(rest[0]))
    ensures NumberAt(strtof, w + (tok + rest)) == strtof(tok)
  {
    assert (tok + rest)[0] == tok[0];
    TrimmedSkipsWs(w, tok + rest);
    NumberLenOf(tok, rest);
    assert (tok + rest)[..|tok|] == tok;
  }

  ghost predicate BraceFree(p: string) {
    Lacks(p, '{') && Lacks(p, '}')
  }

  lemma {:induction false} PastSkips(p: string, rest: string, depth: int)
    requires BraceFree(p)
    ensures Past(p + rest, depth) == Past(rest, depth)
  {
    if p == "" {
      assert p + rest == rest;
    } else {
      PastSkips(p[1..], rest, depth);
      assert (p + rest)[0] == p[0] && (p + rest)[1..] == p[1..] + rest;
    }
  }

  lemma PastOpens(rest: string, depth: int)
    ensures Past("{" + rest, depth) == Past(rest, depth + 1)
  {
    assert ("{" + rest)[1..] == rest;
  }

  lemma PastCloses(rest: string, depth: int)
    ensures Past("}" + rest, depth) == if depth == 1 then Some(rest) else Past(rest, depth - 1)
  {
    assert ("}" + rest)[1..] == rest;
  }

  // ---------------------------------------------------------------- what counts as a number and as whitespace

  predicate AllDigits(d: string) {
    d != "" && forall i :: 0 <= i < |d| ==> d[i] in "0123456789"
  }

  /** A decimal as a JSON printer writes it. */
  datatype Decimal = Decimal(minus: bool, whole: string, fraction: string, exponent: string, expSign: string) {
    predicate Valid() {
      && AllDigits(whole) && (fraction == "" || AllDigits(fraction)) && (exponent == "" || AllDigits(exponent))
      && (expSign == "" || expSign == "+" || expSign == "-")
    }

    function Text(e: string): string {
      (if minus then "-" else "") + whole + (if fraction == "" then "" else "." + fraction)
      + (if exponent == "" then "" else e + expSign + exponent)
    }
  }

  ghost predicate AllNumeric(t: string) {
    forall i :: 0 <= i < |t| ==> IsNumberChar(t[i])
  }

  lemma DigitsAreNumeric(d: string)
    ensures AllDigits(d) ==> AllNumeric(d)
  {
  }

  lemma NumericConcat(a: string, b: string)
    requires AllNumeric(a) && AllNumeric(b)
    ensures AllNumeric(a + b)
  {
  }

  /** Every printed decimal is one token: sign, digits, point and exponent. */
  lemma DecimalIsToken(d: Decimal, e: string)
    requires d.Valid() && (e == "e" || e == "E")
    ensures NumberToken(d.Text(e))
  {
    DigitsAreNumeric(d.whole);
    DigitsAreNumeric(d.fraction);
    DigitsAreNumeric(d.exponent);
    var sign := if d.minus then "-" else "";
    var point := if d.fraction == "" then "" else "." + d.fraction;
    var tail := if d.exponent == "" then "" else e + d.expSign + d.exponent;
    assert AllNumeric(sign) && AllNumeric(".") && AllNumeric(e) && AllNumeric(d.expSign);
    hide AllNumeric, AllDigits;
    if d.fraction != "" { NumericConcat(".", d.fraction); }
    if d.exponent != "" {
      NumericConcat(e, d.expSign);
      NumericConcat(e + d.expSign, d.exponent);
    }
    assert AllNumeric("");
    NumericConcat(sign, d.whole);
    NumericConcat(sign + d.whole, point);
    NumericConcat(sign + d.whole + point, tail);
  }

  /** A string is whitespace exactly when it consists of blanks, tabs and line ends. */
  lemma WhitespaceIs(w: string)
    ensures AllWs(w) <==> forall i :: 0 <= i < |w| ==> w[i] in " \t\n\r"
  {
    forall i | 0 <= i < |w|
      ensures IsWs(w[i]) <==> w[i] in " \t\n\r"
    {
      CharIn(w[i]);
    }
  }

  lemma CharIn(c: char)
    ensures c in " \t\n\r" <==> c == ' ' || c == '\t' || c == '\n' || c == '\r'
  {
    var s := " \t\n\r";
    assert s[0] == ' ' && s[1] == '\t' && s[2] == '\n' && s[3] == '\r';
  }

  /** A number ends before a comma, a brace, a quote or whitespace. */
  lemma NumberEnds(c: char)
    requires c == ',' || c == '}' || c == '"' || IsWs(c)
    ensures !IsNumberChar(c)
  {
  }
}
