/**
 The tolerant scanner of core/config/calibration_sidecar.cpp. `strtof` is a parameter: the number a
 token converts to, or None if nothing converts.
*/
module CalibrationSidecar {
  import opened Wrappers

  type Strtof = string -> Option<real>

  datatype Method = NoCalibration | Temperature | Platt

  datatype Stage = Stage(kind: Method, temperature: real, a: real, b: real)

  datatype Sidecar = Sidecar(stage1: Stage, stage2: Stage)

  const IDENTITY_STAGE := Stage(NoCalibration, 1.0, 1.0, 0.0)
  const IDENTITY := Sidecar(IDENTITY_STAGE, IDENTITY_STAGE)

  // ---------------------------------------------------------------- what the scanner finds

  predicate IsWs(c: char) {
    c == ' ' || c == '\t' || c == '\n' || c == '\r'
  }

  predicate IsNumberChar(c: char) {
    '0' <= c <= '9' || c == '-' || c == '+' || c == '.' || c == 'e' || c == 'E'
  }

  predicate StartsWith(t: string, pat: string) {
    |pat| <= |t| && t[..|pat|] == pat
  }

  /** The first occurrence of pat. */
  function Find(t: string, pat: string): (r: Option<nat>)
    ensures r.Some? ==> r.value + |pat| <= |t|
  {
    if StartsWith(t, pat) then Some(0)
    else if t == "" then None
    else
      var rest := Find(t[1..], pat);
      if rest.Some? then Some(rest.value + 1) else None
  }

  /** Find returns an occurrence with none before it, or None if there is none. */
  lemma {:induction false} FindIsFirst(t: string, pat: string)
    ensures Find(t, pat).Some? ==> StartsWith(t[Find(t, pat).value..], pat)
    ensures forall i :: 0 <= i < |t| && (Find(t, pat).Some? ==> i < Find(t, pat).value) ==> !StartsWith(t[i..], pat)
  {
    if !StartsWith(t, pat) && t != "" {
      FindIsFirst(t[1..], pat);
      assert forall i :: 0 < i <= |t| ==> t[i..] == t[1..][i - 1..];
    }
  }

  /** Without leading whitespace. */
  function Trimmed(v: string): (t: string)
    ensures |t| <= |v|
  {
    if v != "" && IsWs(v[0]) then Trimmed(v[1..]) else v
  }

  /** How many leading number characters. */
  function NumberLen(t: string): (n: nat)
    ensures n <= |t|
  {
    if t == "" || !IsNumberChar(t[0]) then 0 else NumberLen(t[1..]) + 1
  }

  /** The text past the brace at which the depth, now `depth`, falls to zero. */
  function Past(t: string, depth: int): (r: Option<string>)
    ensures r.Some? ==> |r.value| < |t|
  {
    if t == "" then None
    else if t[0] == '{' then Past(t[1..], depth + 1)
    else if t[0] != '}' then Past(t[1..], depth)
    else if depth == 1 then Some(t[1..])
    else Past(t[1..], depth - 1)
  }

  function Quoted(key: string): string {
    "\"" + key + "\""
  }

  /** The text after the first colon. */
  function AfterColon(r: string): Option<string> {
    match Find(r, ":")
    case None => None
    case Some(c) => Some(r[c + 1..])
  }

  /** The text after the colon that follows the first quoted occurrence of key. */
  function AfterKey(s: string, key: string): Option<string> {
    match Find(s, Quoted(key))
    case None => None
    case Some(k) =>
      AfterColon(s[k + |Quoted(key)|..])
  }

  function NumberAt(strtof: Strtof, v: string): Option<real> {
    var t := Trimmed(v);
    if NumberLen(t) == 0 then None else strtof(t[..NumberLen(t)])
  }

  /** The brace-balanced object v begins with. */
  function ObjectAt(v: string): Option<string> {
    var t := Trimmed(v);
    if t == "" || t[0] != '{' then None
    else match Past(t, 0)
         case None => None
         case Some(rest) => Some(t[..|t| - |rest|])
  }

  function Object(s: string, key: string): Option<string> {
    match AfterKey(s, key)
    case None => None
    case Some(v) => ObjectAt(v)
  }

  function MethodNamed(name: string): Method {
    if name == "platt" then Platt else if name == "temperature" then Temperature else NoCalibration
  }

  /** The string value of "method" in the block. */
  function MethodOf(cal: string): Method {
    match AfterKey(cal, "method")
    case None => NoCalibration
    case Some(v) =>
      match Find(v, "\"")
      case None => NoCalibration
      case Some(q1) =>
        var r := v[q1 + 1..];
        match Find(r, "\"")
        case None => NoCalibration
        case Some(q2) => MethodNamed(r[..q2])
  }

  function NumberOf(strtof: Strtof, obj: string, key: string, default: real): real {
    match AfterKey(obj, key)
    case None => default
    case Some(v) => if NumberAt(strtof, v).Some? then NumberAt(strtof, v).value else default
  }

  function StageOf(strtof: Strtof, cal: string, key: string, kind: Method): Stage {
    match Object(cal, key)
    case None => IDENTITY_STAGE
    case Some(obj) =>
      Stage(kind, NumberOf(strtof, obj, "temperature", 1.0), NumberOf(strtof, obj, "a", 1.0), NumberOf(strtof, obj, "b", 0.0))
  }

  function SidecarOf(strtof: Strtof, cal: string): Sidecar {
    Sidecar(StageOf(strtof, cal, "stage1", MethodOf(cal)), StageOf(strtof, cal, "stage2", MethodOf(cal)))
  }

  function Parsed(strtof: Strtof, s: string): Sidecar {
    match Object(s, "calibration")
    case None => IDENTITY
    case Some(cal) => SidecarOf(strtof, cal)
  }

  // ---------------------------------------------------------------- the scanner

  /** The index just past the colon. */
  method FindKeyColon(s: string, key: string) returns (pos: Option<nat>)
    ensures pos.None? <==> AfterKey(s, key).None?
    ensures pos.Some? ==> pos.value <= |s| && AfterKey(s, key) == Some(s[pos.value..])
  {
    var needle := Quoted(key);
    var k := Find(s, needle);
    if k.None? {
      return None;
    }
    var r := s[k.value + |needle|..];
    var colon := Find(r, ":");
    if colon.None? {
      return None;
    }
    pos := Some(k.value + |needle| + colon.value + 1);
    assert s[pos.value..] == r[colon.value + 1..];
  }

  method ParseNumberAt(strtof: Strtof, s: string, pos: Option<nat>, out: real) returns (ok: bool, value: real)
    requires pos.Some? ==> pos.value <= |s|
    ensures ok <==> pos.Some? && NumberAt(strtof, s[pos.value..]).Some?
    ensures value == if ok then NumberAt(strtof, s[pos.value..]).value else out
  {
    hide Trimmed;
    ok, value := false, out;
    if pos.None? {
      return;
    }
    var p := SkipWs(s, pos.value);
    var start := p;
    while p < |s|
      invariant start <= p <= |s| && NumberLen(s[start..]) == p - start + NumberLen(s[p..])
    {
      if IsNumberChar(s[p]) {
        assert s[p..][1..] == s[p + 1..];
        p := p + 1;
      } else {
        break;
      }
    }
    assert s[start..][..p - start] == s[start..p];
    if p == start {
      return;
    }
    var v := strtof(s[start..p]);
    if v.None? {
      return;
    }
    return true, v.value;
  }

  method SkipWs(s: string, pos: nat) returns (p: nat)
    requires pos <= |s|
    ensures pos <= p <= |s| && s[p..] == Trimmed(s[pos..])
  {
    p := pos;
    while p < |s| && IsWs(s[p])
      invariant pos <= p <= |s| && Trimmed(s[pos..]) == Trimmed(s[p..])
    {
      assert s[p..][1..] == s[p + 1..];
      p := p + 1;
    }
  }

  method FindObject(s: string, key: string) returns (ok: bool, objStart: nat, objEnd: nat)
    ensures ok <==> Object(s, key).Some?
    ensures ok ==> objStart <= objEnd < |s| && Object(s, key) == Some(s[objStart..objEnd + 1])
  {
    hide AfterKey, Find, Trimmed;
    ok, objStart, objEnd := false, 0, 0;
    var v := FindKeyColon(s, key);
    if v.None? {
      return;
    }
    var brace := SkipWs(s, v.value);
    if brace >= |s| || s[brace] != '{' {
      return;
    }
    var depth := 0;
    for i := brace to |s|
      invariant Past(s[brace..], 0) == Past(s[i..], depth)
      invariant i == brace ==> depth == 0
    {
      assert s[i..][1..] == s[i + 1..];
      if s[i] == '{' {
        depth := depth + 1;
      } else if s[i] == '}' {
        depth := depth - 1;
        if depth == 0 {
          assert s[brace..][..i - brace + 1] == s[brace..i + 1];
          return true, brace, i;
        }
      }
    }
  }

  method FillStage(strtof: Strtof, cal: string, key: string, kind: Method) returns (stage: Stage)
    ensures stage == StageOf(strtof, cal, key, kind)
  {
    stage := IDENTITY_STAGE;
    var ok, oS, oE := FindObject(cal, key);
    if !ok {
      return;
    }
    var obj := cal[oS..oE + 1];
    stage := stage.(kind := kind);
    var v := 0.0;
    var pos := FindKeyColon(obj, "a");
    ok, v := ParseNumberAt(strtof, obj, pos, v);
    if ok { stage := stage.(a := v); }
    pos := FindKeyColon(obj, "b");
    ok, v := ParseNumberAt(strtof, obj, pos, v);
    if ok { stage := stage.(b := v); }
    pos := FindKeyColon(obj, "temperature");
    ok, v := ParseNumberAt(strtof, obj, pos, v);
    if ok { stage := stage.(temperature := v); }
  }

  method Parse(strtof: Strtof, s: string) returns (out: Sidecar)
    ensures out == Parsed(strtof, s)
    ensures Object(s, "calibration").None? ==> out.stage1 == out.stage2 == Stage(NoCalibration, 1.0, 1.0, 0.0)
  {
    out := IDENTITY;
    var ok, calStart, calEnd := FindObject(s, "calibration");
    if !ok {
      return;
    }
    var cal := s[calStart..calEnd + 1];
    var m := FindMethod(cal);
    var stage1 := FillStage(strtof, cal, "stage1", m);
    var stage2 := FillStage(strtof, cal, "stage2", m);
    out := Sidecar(stage1, stage2);
  }

  method FindMethod(cal: string) returns (m: Method)
    ensures m == MethodOf(cal)
  {
    hide AfterKey, Find, MethodNamed;
    m := NoCalibration;
    var mv := FindKeyColon(cal, "method");
    if mv.Some? {
      var v := cal[mv.value..];
      var q1 := Find(v, "\"");
      if q1.Some? {
        var r := v[q1.value + 1..];
        var q2 := Find(r, "\"");
        if q2.Some? {
          m := MethodNamed(r[..q2.value]);
        }
      }
    }
  }
}
