/**
 * The byte scanner that replaces the value of the top-level "model" key.
 *
 * The scanning functions map the text still to be read to what is left of it after a token; the methods
 * move an index over the whole body, as the router does.
 */
module Splice {
  import opened Prelude
  import opened Json

  function AfterWs(s: string): (r: string)
    ensures |r| <= |s|
  {
    if s != "" && IsWs(s[0]) then AfterWs(s[1..]) else s
  }

  /** `s` starts just past the opening quote; an unterminated string swallows the rest. */
  function AfterString(s: string): (r: string)
    ensures |r| <= |s|
  {
    if s == "" then ""
    else if s[0] == '"' then s[1..]
    else if s[0] == '\\' then (if |s| == 1 then "" else AfterString(s[2..]))
    else AfterString(s[1..])
  }

  predicate Opens(c: char) {
    c == '{' || c == '['
  }

  predicate Closes(c: char) {
    c == '}' || c == ']'
  }

  /** Count brackets outside strings until the count returns to 0. */
  function AfterNest(s: string, depth: int): (r: Option<string>)
    ensures r.Some? ==> |r.value| <= |s|
    decreases |s|
  {
    if s == "" then None
    else if s[0] == '"' then AfterNest(AfterString(s[1..]), depth)
    else if Opens(s[0]) then AfterNest(s[1..], depth + 1)
    else if Closes(s[0]) then (if depth - 1 == 0 then Some(s[1..]) else AfterNest(s[1..], depth - 1))
    else AfterNest(s[1..], depth)
  }

  predicate EndsScalar(c: char) {
    c == ',' || c == '}' || c == ']' || IsWs(c)
  }

  function AfterScalar(s: string): (r: string)
    ensures |r| <= |s|
  {
    if s == "" || EndsScalar(s[0]) then s else AfterScalar(s[1..])
  }

  function AfterValue(s: string): (r: Option<string>)
    ensures r.Some? ==> |r.value| <= |s|
  {
    if s == "" then None
    else if s[0] == '"' then Some(AfterString(s[1..]))
    else if Opens(s[0]) then AfterNest(s, 0)
    else Some(AfterScalar(s))
  }

  // ----- keys

  /** Decode the body of a quoted key; None when it is not a valid string body. */
  function Unescape(s: string): Option<seq<nat>> {
    if s == "" then Some([])
    else if s[0] == '"' || s[0] < ' ' then None
    else if s[0] != '\\' then Prepend(s[0] as nat, Unescape(s[1..]))
    else if |s| >= 6 && s[1] == 'u' && ValidItem(Unicode(s[2..6])) then Prepend(Hex4(s[2..6]), Unescape(s[6..]))
    else if |s| >= 2 && ValidItem(Escape(s[1])) then Prepend(EscapeValue(s[1]), Unescape(s[2..]))
    else None
  }

  function Prepend(n: nat, r: Option<seq<nat>>): Option<seq<nat>> {
    match r case None => None case Some(ns) => Some([n] + ns)
  }

  const MODEL := Codes("model")

  predicate IsModelKey(quoted: string) {
    || quoted == ['"'] + "model" + ['"']
    || ('\\' in quoted && |quoted| >= 2 && quoted[0] == '"' && quoted[|quoted| - 1] == '"'
        && Unescape(quoted[1..|quoted| - 1]) == Some(MODEL))
  }

  // ----- the object

  /** The text at the start and just past the end of the last model value seen. */
  datatype Found = Nothing | At(from: string, to: string)

  datatype Scan = Done(found: Found) | MalformedObject | MalformedValue

  /** A quoted key, and the text from its value on. */
  function ReadKey(s: string): (r: Option<(string, string)>)
    ensures r.Some? ==> |r.value.1| <= |s|
  {
    var s1 := AfterWs(s);
    if s1 == "" || s1[0] != '"' then None
    else
      var s2 := AfterString(s1[1..]);
      var s3 := AfterWs(s2);
      if s3 == "" || s3[0] != ':' then None else Some((s1[..|s1| - |s2|], AfterWs(s3[1..])))
  }

  function Noted(key: string, from: string, to: string, found: Found): Found {
    if IsModelKey(key) then At(from, to) else found
  }

  function AfterMember(s: string, found: Found): (r: (string, Scan))
    ensures |r.0| <= |s|
  {
    match ReadKey(s)
    case None => (s, MalformedObject)
    case Some((key, from)) =>
      match AfterValue(from)
      case None => (s, MalformedValue)
      case Some(to) => (AfterWs(to), Done(Noted(key, from, to, found)))
  }

  /** One member read: the object ends, well or badly, or more members follow. */
  datatype Turn = Ends(r: Scan) | More(rest: string, found: Found)

  function Leaving(m: (string, Scan)): (t: Turn)
    ensures t.More? ==> |t.rest| < |m.0|
  {
    var (rest, r) := m;
    if !r.Done? then Ends(r)
    else if rest != "" && rest[0] == ',' then More(rest[1..], r.found)
    else if rest != "" && rest[0] == '}' then Ends(r)
    else Ends(MalformedObject)
  }

  function AfterTurn(s: string, found: Found): (t: Turn)
    ensures t.More? ==> |t.rest| < |s|
  {
    var s1 := AfterWs(s);
    if s1 != "" && s1[0] == '}' then Ends(Done(found)) else Leaving(AfterMember(s, found))
  }

  /** Read members up to the closing brace. */
  function ReadMembers(s: string, found: Found): Scan
    decreases |s|
  {
    match AfterTurn(s, found)
    case Ends(r) => r
    case More(rest, f) => ReadMembers(rest, f)
  }

  datatype Outcome = Spliced(out: string) | NotAnObject | Malformed | MalformedMember | NoModel

  /** What the scan's result makes of the body. */
  function Apply(body: string, quoted: string, r: Scan): Outcome {
    match r
    case MalformedObject => Malformed
    case MalformedValue => MalformedMember
    case Done(Nothing) => NoModel
    case Done(At(from, to)) => if |from| <= |body| then Spliced(body[..|body| - |from|] + quoted + to) else NoModel
  }

  function Replace(body: string, quoted: string): Outcome {
    var s := AfterWs(body);
    if s == "" || s[0] != '{' then NotAnObject
    else Apply(body, quoted, ReadMembers(s[1..], Nothing))
  }

  // ----- the index-moving form

  lemma SuffixStep(b: string, i: nat)
    requires i < |b|
    ensures b[i..] != "" && b[i..][0] == b[i] && b[i..][1..] == b[i + 1..]
  {
  }

  method SkipWS(b: string, start: nat) returns (i: nat)
    requires start <= |b|
    ensures start <= i <= |b| && b[i..] == AfterWs(b[start..])
  {
    i := start;
    while i < |b| && IsWs(b[i])
      invariant start <= i <= |b| && AfterWs(b[i..]) == AfterWs(b[start..])
    {
      SuffixStep(b, i);
      i := i + 1;
    }
    if i < |b| { SuffixStep(b, i); }
  }

  method SkipString(b: string, start: nat) returns (i: nat)
    requires start < |b|
    ensures start < i <= |b| && b[i..] == AfterString(b[start + 1..])
  {
    i := start + 1;
    while i < |b|
      invariant start < i && (i <= |b| ==> AfterString(b[i..]) == AfterString(b[start + 1..]))
      invariant i > |b| ==> AfterString(b[start + 1..]) == ""
    {
      SuffixStep(b, i);
      if b[i] == '\\' {
        if i + 1 < |b| {
          assert b[i..][2..] == b[i + 2..];
        } else {
          assert |b[i..]| == 1;
        }
        i := i + 1;
      } else if b[i] == '"' {
        return i + 1;
      }
      i := i + 1;
    }
    i := |b|;
    assert b[i..] == "";
  }

  method SkipNest(b: string, start: nat) returns (i: int)
    requires start <= |b|
    ensures i == -1 || start <= i <= |b|
    ensures AfterNest(b[start..], 0) == if i == -1 then None else Some(b[i..])
  {
    var depth := 0;
    i := start;
    while i < |b|
      invariant start <= i <= |b| && AfterNest(b[i..], depth) == AfterNest(b[start..], 0)
    {
      SuffixStep(b, i);
      if b[i] == '"' {
        i := SkipString(b, i);
        i := i - 1;
      } else if Opens(b[i]) {
        depth := depth + 1;
      } else if Closes(b[i]) {
        depth := depth - 1;
        if depth == 0 { return i + 1; }
      }
      i := i + 1;
    }
    return -1;
  }

  method SkipScalar(b: string, start: nat) returns (i: nat)
    requires start <= |b|
    ensures start <= i <= |b| && b[i..] == AfterScalar(b[start..])
  {
    i := start;
    while i < |b| && !EndsScalar(b[i])
      invariant start <= i <= |b| && AfterScalar(b[i..]) == AfterScalar(b[start..])
    {
      SuffixStep(b, i);
      i := i + 1;
    }
    if i < |b| { SuffixStep(b, i); }
  }

  method SkipValue(b: string, start: nat) returns (i: int)
    requires start <= |b|
    ensures i == -1 || start <= i <= |b|
    ensures AfterValue(b[start..]) == if i == -1 then None else Some(b[i..])
  {
    if start >= |b| { return -1; }
    SuffixStep(b, start);
    if b[start] == '"' {
      i := SkipString(b, start);
    } else if Opens(b[start]) {
      i := SkipNest(b, start);
    } else {
      i := SkipScalar(b, start);
    }
  }

  method SkipKey(body: string, start: nat) returns (ok: bool, i: nat, key: string)
    requires start <= |body|
    ensures start <= i <= |body|
    ensures ReadKey(body[start..]) == if ok then Some((key, body[i..])) else None
  {
    ok, key := false, "";
    i := SkipWS(body, start);
    if i >= |body| || body[i] != '"' { return; }
    var keyStart := i;
    SuffixStep(body, i);
    i := SkipString(body, i);
    key := body[keyStart..i];
    assert key == body[keyStart..][..|body[keyStart..]| - |body[i..]|];
    i := SkipWS(body, i);
    if i >= |body| || body[i] != ':' { return; }
    SuffixStep(body, i);
    i := SkipWS(body, i + 1);
    ok := true;
  }

  method Note(body: string, key: string, vs: nat, ve: nat, valStart: int, valEnd: int) returns (s: int, e: int)
    requires vs <= ve <= |body| && GoodSpan(body, valStart, valEnd)
    ensures GoodSpan(body, s, e)
    ensures FoundAt(body, s, e) == Noted(key, body[vs..], body[ve..], FoundAt(body, valStart, valEnd))
  {
    s, e := valStart, valEnd;
    if IsModelKey(key) { s, e := vs, ve; }
  }

  ghost predicate GoodSpan(body: string, s: int, e: int) {
    (s == -1 && e == -1) || 0 <= s <= e <= |body|
  }

  ghost predicate Stopped(r: Scan, err: Option<Outcome>) {
    (r == MalformedObject && err == Some(Malformed)) || (r == MalformedValue && err == Some(MalformedMember))
  }

  /** One turn of the loop: the new index, or the error it stops with. */
  method ReadMember(body: string, start: nat, valStart: int, valEnd: int)
    returns (i: nat, newStart: int, newEnd: int, err: Option<Outcome>)
    requires start <= |body| && GoodSpan(body, valStart, valEnd)
    ensures start <= i <= |body| && GoodSpan(body, newStart, newEnd)
    ensures var m := AfterMember(body[start..], FoundAt(body, valStart, valEnd));
            if err.Some? then Stopped(m.1, err) else m == (body[i..], Done(FoundAt(body, newStart, newEnd)))
  {
    newStart, newEnd, err := valStart, valEnd, None;
    var ok, vs, key := SkipKey(body, start);
    i := vs;
    if !ok { err := Some(Malformed); return; }
    var ve := SkipValue(body, vs);
    if ve < 0 { err := Some(MalformedMember); return; }
    newStart, newEnd := Note(body, key, vs, ve, valStart, valEnd);
    i := SkipWS(body, ve);
  }

  /** Past a member: a comma, the closing brace, or neither. */
  method LeaveMember(body: string, end: nat, ghost found: Found) returns (more: bool, i: nat, err: Option<Outcome>)
    requires end <= |body|
    ensures end <= i <= |body| && (more ==> err.None? && end < i)
    ensures Leaving((body[end..], Done(found)))
            == if more then More(body[i..], found) else Ends(if err.Some? then MalformedObject else Done(found))
    ensures err.Some? ==> err == Some(Malformed)
  {
    more, i, err := false, end, None;
    if end < |body| && body[end] == ',' {
      SuffixStep(body, end);
      more, i := true, end + 1;
    } else if end >= |body| || body[end] != '}' {
      err := Some(Malformed);
    }
  }

  /** One turn of the loop with its exits: another member follows, the object ends, or it is malformed. */
  method NextMember(body: string, start: nat, valStart: int, valEnd: int)
    returns (more: bool, i: nat, newStart: int, newEnd: int, err: Option<Outcome>)
    requires start <= |body| && GoodSpan(body, valStart, valEnd)
    ensures start <= i <= |body| && GoodSpan(body, newStart, newEnd) && (more ==> err.None? && start < i)
    ensures var t := AfterTurn(body[start..], FoundAt(body, valStart, valEnd));
            if more then t == More(body[i..], FoundAt(body, newStart, newEnd))
            else if err.Some? then t.Ends? && Stopped(t.r, err)
            else t == Ends(Done(FoundAt(body, newStart, newEnd)))
  {
    more, i, newStart, newEnd, err := false, start, valStart, valEnd, None;
    var j := SkipWS(body, start);
    if j < |body| && body[j] == '}' { return; }
    i, newStart, newEnd, err := ReadMember(body, start, valStart, valEnd);
    if err.None? {
      more, i, err := LeaveMember(body, i, FoundAt(body, newStart, newEnd));
    }
  }

  /** The member loop, from just past the opening brace. */
  method ScanMembers(body: string, start: nat) returns (valStart: int, valEnd: int, err: Option<Outcome>)
    requires start <= |body|
    ensures GoodSpan(body, valStart, valEnd)
    ensures if err.Some? then Stopped(ReadMembers(body[start..], Nothing), err)
            else ReadMembers(body[start..], Nothing) == Done(FoundAt(body, valStart, valEnd))
  {
    valStart, valEnd, err := -1, -1, None;
    var i := start;
    while true
      invariant i <= |body| && GoodSpan(body, valStart, valEnd) && err.None?
      invariant ReadMembers(body[i..], FoundAt(body, valStart, valEnd)) == ReadMembers(body[start..], Nothing)
      decreases |body| - i
    {
      var more;
      more, i, valStart, valEnd, err := NextMember(body, i, valStart, valEnd);
      if !more { return; }
    }
  }

  lemma ReplaceUnfolds(body: string, quoted: string, r: Scan)
    requires AfterWs(body) != "" && AfterWs(body)[0] == '{' && ReadMembers(AfterWs(body)[1..], Nothing) == r
    ensures Replace(body, quoted) == Apply(body, quoted, r)
  {
  }

  /** The router's scan over the whole body equals reading it token by token. */
  method ReplaceTopLevelModel(body: string, quoted: string) returns (r: Outcome)
    ensures r == Replace(body, quoted)
  {
    var i := SkipWS(body, 0);
    assert body[0..] == body;
    if i >= |body| || body[i] != '{' { return NotAnObject; }
    SuffixStep(body, i);
    var valStart, valEnd, err := ScanMembers(body, i + 1);
    ReplaceUnfolds(body, quoted, ReadMembers(body[i + 1..], Nothing));
    if err.Some? { return err.value; }
    if valStart < 0 { return NoModel; }
    r := Spliced(body[..valStart] + quoted + body[valEnd..]);
  }

  ghost function FoundAt(body: string, valStart: int, valEnd: int): Found {
    if 0 <= valStart <= valEnd <= |body| then At(body[valStart..], body[valEnd..]) else Nothing
  }
}
