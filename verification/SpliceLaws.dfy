/** On every well-formed JSON object the splice changes the last model value and nothing else. */
module SpliceLaws {
  import opened Prelude
  import opened Json
  import opened Splice

  // ----- tokens end where they should

  lemma {:induction false} SkipsWs(ws: string, s: string)
    requires AllWs(ws) && (s == "" || !IsWs(s[0]))
    ensures AfterWs(ws + s) == s
  {
    if ws == "" {
      assert ws + s == s;
    } else {
      assert (ws + s)[1..] == ws[1..] + s;
      SkipsWs(ws[1..], s);
    }
  }

  lemma StringStep(c: char, s: string)
    requires c != '"' && c != '\\'
    ensures AfterString([c] + s) == AfterString(s)
  {
    assert ([c] + s)[1..] == s;
  }

  lemma ItemStep(x: Item, s: string)
    requires ValidItem(x)
    ensures AfterString(ItemText(x) + s) == AfterString(s)
  {
    match x
    case Plain(c) => StringStep(c, s);
    case Escape(c) => assert (ItemText(x) + s)[2..] == s;
    case Unicode(h) =>
      assert (ItemText(x) + s)[2..] == [h[0]] + ([h[1]] + ([h[2]] + ([h[3]] + s)));
      StringStep(h[0], [h[1]] + ([h[2]] + ([h[3]] + s)));
      StringStep(h[1], [h[2]] + ([h[3]] + s));
      StringStep(h[2], [h[3]] + s);
      StringStep(h[3], s);
  }

  /** The string scanner stops exactly past the closing quote, whatever escapes the string holds. */
  lemma {:induction false} StringEndsAtItsQuote(xs: seq<Item>, post: string)
    requires ValidItems(xs)
    ensures AfterString(ItemsText(xs) + (['"'] + post)) == post
  {
    if xs == [] {
      assert ItemsText(xs) + (['"'] + post) == ['"'] + post;
    } else {
      var t := ItemsText(xs[1..]) + (['"'] + post);
      assert ItemsText(xs) + (['"'] + post) == ItemText(xs[0]) + t;
      ItemStep(xs[0], t);
      StringEndsAtItsQuote(xs[1..], post);
    }
  }

  /** Text the bracket counter walks over without noticing. */
  predicate Quiet(s: string) {
    forall i :: 0 <= i < |s| ==> s[i] != '"' && !Splice.Opens(s[i]) && !Closes(s[i])
  }

  /** Text that leaves the bracket counter where it was, whatever follows. */
  ghost predicate Neutral(s: string, d: int) {
    forall post :: AfterNest(s + post, d) == AfterNest(post, d)
  }

  lemma Compose(a: string, b: string, d: int)
    requires Neutral(a, d) && Neutral(b, d)
    ensures Neutral(a + b, d)
  {
    forall post ensures AfterNest(a + b + post, d) == AfterNest(post, d) {
      assert a + b + post == a + (b + post);
    }
  }

  lemma {:induction false} NestSkipsQuiet(s: string, post: string, d: int)
    requires Quiet(s)
    ensures AfterNest(s + post, d) == AfterNest(post, d)
  {
    if s == "" {
      assert s + post == post;
    } else {
      assert (s + post)[1..] == s[1..] + post;
      NestSkipsQuiet(s[1..], post, d);
    }
  }

  lemma QuietIsNeutral(s: string, d: int)
    requires Quiet(s)
    ensures Neutral(s, d)
  {
    forall post ensures AfterNest(s + post, d) == AfterNest(post, d) { NestSkipsQuiet(s, post, d); }
  }

  predicate ScalarText(s: string) {
    s != "" && Quiet(s) && forall i :: 0 <= i < |s| ==> !EndsScalar(s[i])
  }

  lemma NumIsScalarText(minus: bool, whole: string, frac: string, exp: Option<Exponent>)
    requires ValidNum(whole, frac, exp)
    ensures ScalarText(NumText(minus, whole, frac, exp))
  {
    var sign := if minus then "-" else "";
    var f := if frac == "" then "" else "." + frac;
    var x := match exp case None => "" case Some(e) => (if e.upper then "E" else "e") + e.sign + e.digits;
    assert Bland(sign) && Bland(whole) && Bland(f);
    assert Bland(x);
    BlandIsScalarText(sign + whole + f + x);
  }

  /** Characters numbers are made of. */
  predicate Bland(s: string) {
    forall i :: 0 <= i < |s| ==> IsDigit(s[i]) || s[i] in "-+.eE"
  }

  lemma BlandIsScalarText(s: string)
    requires Bland(s) && s != ""
    ensures ScalarText(s)
  {
  }

  lemma ScalarIsScalarText(v: Value)
    requires Valid(v) && (v.Word? || v.Num?)
    ensures ScalarText(Text(v))
  {
    if v.Num? { NumIsScalarText(v.minus, v.whole, v.frac, v.exp); }
  }

  lemma {:induction false} ScalarEnds(s: string, post: string)
    requires (forall i :: 0 <= i < |s| ==> !EndsScalar(s[i])) && (post == "" || EndsScalar(post[0]))
    ensures AfterScalar(s + post) == post
  {
    if s == "" {
      assert s + post == post;
    } else {
      assert (s + post)[1..] == s[1..] + post;
      ScalarEnds(s[1..], post);
    }
  }

  // ----- nesting

  lemma QuotedParts(inner: string, post: string)
    ensures (['"'] + inner + ['"'] + post)[1..] == inner + (['"'] + post)
  {
  }

  lemma NestSkipsString(items: seq<Item>, post: string, d: int)
    requires ValidItems(items)
    ensures AfterNest(StrText(items) + post, d) == AfterNest(post, d)
  {
    QuotedParts(ItemsText(items), post);
    StringEndsAtItsQuote(items, post);
  }

  lemma StringIsNeutral(items: seq<Item>, d: int)
    requires ValidItems(items)
    ensures Neutral(StrText(items), d)
  {
    forall post ensures AfterNest(StrText(items) + post, d) == AfterNest(post, d) { NestSkipsString(items, post, d); }
  }

  /** A bracketed text whose inside is neutral closes at its closing bracket. */
  lemma BracketsClose(o: char, inner: string, c: char, post: string, d: int)
    requires Splice.Opens(o) && Closes(c) && d >= 0 && Neutral(inner, d + 1)
    ensures AfterNest([o] + inner + [c] + post, d) == if d == 0 then Some(post) else AfterNest(post, d)
  {
    assert ([o] + inner + [c] + post)[1..] == inner + ([c] + post);
    assert ([c] + post)[1..] == post;
  }

  lemma BracketsAreNeutral(o: char, inner: string, c: char, d: int)
    requires Splice.Opens(o) && Closes(c) && d >= 1 && Neutral(inner, d + 1)
    ensures Neutral([o] + inner + [c], d)
  {
    forall post ensures AfterNest([o] + inner + [c] + post, d) == AfterNest(post, d) {
      BracketsClose(o, inner, c, post, d);
    }
  }

  function Inside(v: Value): string
    requires v.Arr? || v.Obj?
  {
    if v.Arr? then (if v.elems.NoElem? then v.lead else ElemsText(v.elems))
    else (if v.members.NoMember? then v.lead else MembersText(v.members))
  }

  lemma {:induction false} InsideIsNeutral(v: Value, d: int)
    requires Valid(v) && (v.Arr? || v.Obj?) && d >= 1
    ensures Neutral(Inside(v), d)
    decreases v, 0
  {
    if v.Arr? && v.elems.Elem? {
      ElemsAreNeutral(v.elems, d);
    } else if v.Obj? && v.members.Member? {
      MembersAreNeutral(v.members, d);
    } else {
      QuietIsNeutral(v.lead, d);
    }
  }

  lemma NestedText(v: Value)
    requires v.Arr? || v.Obj?
    ensures Text(v) == (if v.Arr? then ['['] + Inside(v) + [']'] else ['{'] + Inside(v) + ['}'])
  {
  }

  lemma NestIsNeutral(v: Value, d: int)
    requires (v.Arr? || v.Obj?) && d >= 1 && Neutral(Inside(v), d + 1)
    ensures Neutral(Text(v), d)
  {
    NestedText(v);
    if v.Arr? { BracketsAreNeutral('[', Inside(v), ']', d); } else { BracketsAreNeutral('{', Inside(v), '}', d); }
  }

  lemma ScalarIsNeutral(v: Value, d: int)
    requires Valid(v) && (v.Word? || v.Num?)
    ensures Neutral(Text(v), d)
  {
    ScalarIsScalarText(v);
    QuietIsNeutral(Text(v), d);
  }

  /** Inside brackets, a whole value leaves the bracket count where it was. */
  lemma {:induction false} ValueIsNeutral(v: Value, d: int)
    requires Valid(v) && d >= 1
    ensures Neutral(Text(v), d)
    decreases v, 1
  {
    if v.Str? {
      StringIsNeutral(v.items, d);
    } else if v.Word? || v.Num? {
      ScalarIsNeutral(v, d);
    } else {
      InsideIsNeutral(v, d + 1);
      NestIsNeutral(v, d);
    }
  }

  lemma {:induction false} ElemsAreNeutral(es: Elems, d: int)
    requires ValidElems(es) && es.Elem? && d >= 1
    ensures Neutral(ElemsText(es), d)
    decreases es
  {
    QuietIsNeutral(es.before, d);
    ValueIsNeutral(es.value, d);
    QuietIsNeutral(es.after, d);
    Compose(es.before, Text(es.value), d);
    Compose(es.before + Text(es.value), es.after, d);
    QuietIsNeutral("", d);
    if es.rest.Elem? {
      QuietIsNeutral(",", d);
      ElemsAreNeutral(es.rest, d);
      Compose(",", ElemsText(es.rest), d);
    }
    Compose(es.before + Text(es.value) + es.after, if es.rest.NoElem? then "" else "," + ElemsText(es.rest), d);
  }

  function Head(ms: Members): string
    requires ms.Member?
  {
    ms.before + StrText(ms.key) + ms.gap + ":" + ms.colon
  }

  function Sep(ms: Members): string {
    if ms.NoMember? then "" else "," + MembersText(ms)
  }

  lemma HeadIsNeutral(ms: Members, d: int)
    requires ms.Member? && ValidMembers(ms)
    ensures Neutral(Head(ms), d)
  {
    QuietIsNeutral(ms.before, d);
    StringIsNeutral(ms.key, d);
    Compose(ms.before, StrText(ms.key), d);
    QuietIsNeutral(ms.gap, d);
    Compose(ms.before + StrText(ms.key), ms.gap, d);
    QuietIsNeutral(":", d);
    Compose(ms.before + StrText(ms.key) + ms.gap, ":", d);
    QuietIsNeutral(ms.colon, d);
    Compose(ms.before + StrText(ms.key) + ms.gap + ":", ms.colon, d);
  }

  lemma {:induction false} MembersAreNeutral(ms: Members, d: int)
    requires ValidMembers(ms) && ms.Member? && d >= 1
    ensures Neutral(MembersText(ms), d)
    decreases ms
  {
    HeadIsNeutral(ms, d);
    ValueIsNeutral(ms.value, d);
    Compose(Head(ms), Text(ms.value), d);
    QuietIsNeutral(ms.after, d);
    Compose(Head(ms) + Text(ms.value), ms.after, d);
    QuietIsNeutral("", d);
    if ms.rest.Member? {
      QuietIsNeutral(",", d);
      MembersAreNeutral(ms.rest, d);
      Compose(",", MembersText(ms.rest), d);
    }
    Compose(Head(ms) + Text(ms.value) + ms.after, Sep(ms.rest), d);
  }

  lemma StringValueEnds(items: seq<Item>, post: string)
    requires ValidItems(items)
    ensures AfterValue(StrText(items) + post) == Some(post)
  {
    QuotedParts(ItemsText(items), post);
    StringEndsAtItsQuote(items, post);
  }

  lemma ScalarValueEnds(v: Value, post: string)
    requires Valid(v) && (v.Word? || v.Num?) && (post == "" || EndsScalar(post[0]))
    ensures AfterValue(Text(v) + post) == Some(post)
  {
    ScalarIsScalarText(v);
    ScalarTextEnds(Text(v), post);
  }

  lemma ScalarTextEnds(s: string, post: string)
    requires ScalarText(s) && (post == "" || EndsScalar(post[0]))
    ensures AfterValue(s + post) == Some(post)
  {
    assert (s + post)[0] == s[0];
    ScalarEnds(s, post);
  }

  lemma NestValueEnds(o: char, inner: string, c: char, post: string)
    requires Splice.Opens(o) && Closes(c) && Neutral(inner, 1)
    ensures AfterValue([o] + inner + [c] + post) == Some(post)
  {
    assert ([o] + inner + [c] + post)[0] == o;
    BracketsClose(o, inner, c, post, 0);
  }

  /** The value scanner stops exactly at the end of a value, for any nesting and any escapes. */
  lemma ValueEndsExactly(v: Value, post: string)
    requires Valid(v) && (post == "" || EndsScalar(post[0]))
    ensures AfterValue(Text(v) + post) == Some(post)
  {
    if v.Str? {
      StringValueEnds(v.items, post);
    } else if v.Word? || v.Num? {
      ScalarValueEnds(v, post);
    } else {
      InsideIsNeutral(v, 1);
      NestedText(v);
      if v.Arr? { NestValueEnds('[', Inside(v), ']', post); } else { NestValueEnds('{', Inside(v), '}', post); }
    }
  }

  // ----- keys

  lemma {:induction false} UnescapesToItsMeaning(xs: seq<Item>)
    requires ValidItems(xs)
    ensures Unescape(ItemsText(xs)) == Some(Decoded(xs))
  {
    if xs == [] {
    } else {
      UnescapesToItsMeaning(xs[1..]);
      UnescapeItem(xs[0], ItemsText(xs[1..]));
      assert Decoded(xs) == [ItemValue(xs[0])] + Decoded(xs[1..]);
    }
  }

  lemma UnescapeItem(x: Item, s: string)
    requires ValidItem(x)
    ensures Unescape(ItemText(x) + s) == Prepend(ItemValue(x), Unescape(s))
  {
    var t := ItemText(x) + s;
    match x
    case Plain(c) => assert t[1..] == s;
    case Escape(c) => assert t[2..] == s && t[1] == c;
    case Unicode(h) => assert t[2..6] == h && t[6..] == s;
  }

  /** Without a backslash a string means its own bytes. */
  lemma {:induction false} PlainMeansItself(xs: seq<Item>)
    requires ValidItems(xs) && '\\' !in ItemsText(xs)
    ensures Decoded(xs) == Codes(ItemsText(xs))
  {
    if xs != [] {
      var t := ItemsText(xs[1..]);
      assert ItemsText(xs) == ItemText(xs[0]) + t;
      assert ItemText(xs[0])[0] in ItemsText(xs);
      forall c | c in t ensures c in ItemsText(xs) { }
      PlainMeansItself(xs[1..]);
      assert Decoded(xs) == [ItemValue(xs[0])] + Decoded(xs[1..]);
      assert Codes(ItemsText(xs)) == [xs[0].c as nat] + Codes(t);
    }
  }

  lemma CodesInjective(s: string, t: string)
    requires Codes(s) == Codes(t)
    ensures s == t
  {
    assert |s| == |Codes(s)| && |t| == |Codes(t)|;
    forall i | 0 <= i < |s| ensures s[i] == t[i] { assert Codes(s)[i] == Codes(t)[i]; }
  }

  /** A key names the model exactly when it decodes to "model", escaped spellings included. */
  lemma ModelKeyExactly(xs: seq<Item>)
    requires ValidItems(xs)
    ensures IsModelKey(StrText(xs)) <==> Decoded(xs) == MODEL
  {
    var t := ItemsText(xs);
    assert StrText(xs)[1..|StrText(xs)| - 1] == t;
    UnescapesToItsMeaning(xs);
    if '\\' !in t {
      PlainMeansItself(xs);
      if Decoded(xs) == MODEL { CodesInjective(t, "model"); }
      assert '\\' !in StrText(xs);
    } else {
      assert '\\' in StrText(xs);
    }
  }

  // ----- the object

  predicate HasModel(ms: Members) {
    ms.Member? && (Decoded(ms.key) == MODEL || HasModel(ms.rest))
  }

  /** The members with the value of the last model key replaced; every other part is kept as it is. */
  function SetLast(ms: Members, q: seq<Item>): Members {
    if ms.NoMember? then ms
    else if HasModel(ms.rest) then ms.(rest := SetLast(ms.rest, q))
    else if Decoded(ms.key) == MODEL then ms.(value := Str(q))
    else ms
  }

  /** Where the last model value starts and ends in the text of `ms` followed by `tail`. */
  function LastSpan(ms: Members, tail: string): Found {
    if ms.NoMember? then Nothing
    else if HasModel(ms.rest) then LastSpan(ms.rest, tail)
    else if Decoded(ms.key) == MODEL then
      At(Text(ms.value) + (ms.after + (Sep(ms.rest) + tail)), ms.after + (Sep(ms.rest) + tail))
    else Nothing
  }

  lemma ReadKeySteps(s: string, inner: string, s2: string, s3: string, post: string)
    requires AfterWs(s) == ['"'] + inner + ['"'] + s2 && AfterString(inner + (['"'] + s2)) == s2
    requires AfterWs(s2) == ":" + s3 && AfterWs(s3) == post
    ensures ReadKey(s) == Some((['"'] + inner + ['"'], post))
  {
    QuotedParts(inner, s2);
    var quoted := ['"'] + inner + ['"'];
    assert (quoted + s2)[..|quoted + s2| - |s2|] == quoted;
    assert (":" + s3)[1..] == s3;
  }

  lemma KeyIsRead(ms: Members, post: string)
    requires ms.Member? && ValidMembers(ms) && (post == "" || !IsWs(post[0]))
    ensures ReadKey(Head(ms) + post) == Some((StrText(ms.key), post))
  {
    var s3 := ms.colon + post;
    var s2 := ms.gap + (":" + s3);
    assert Head(ms) + post == ms.before + (StrText(ms.key) + s2);
    SkipsWs(ms.before, StrText(ms.key) + s2);
    StringEndsAtItsQuote(ms.key, s2);
    SkipsWs(ms.gap, ":" + s3);
    SkipsWs(ms.colon, post);
    ReadKeySteps(Head(ms) + post, ItemsText(ms.key), s2, s3, post);
  }

  lemma ValueStartsInk(v: Value, post: string)
    requires Valid(v)
    ensures Text(v) + post != "" && !IsWs((Text(v) + post)[0])
  {
    if v.Word? || v.Num? { ScalarIsScalarText(v); }
  }

  lemma WsThenMark(ws: string, s: string)
    requires AllWs(ws) && s != "" && EndsScalar(s[0])
    ensures ws + s != "" && EndsScalar((ws + s)[0])
  {
  }

  /** One member is read off the front of the text. */
  lemma MemberIsRead(ms: Members, mark: string, found: Found)
    requires ms.Member? && ValidMembers(ms) && mark != "" && (mark[0] == ',' || mark[0] == '}')
    ensures var from := Text(ms.value) + (ms.after + mark);
            AfterMember(Head(ms) + from, found)
            == (mark, Done(if Decoded(ms.key) == MODEL then At(from, ms.after + mark) else found))
  {
    var to := ms.after + mark;
    ValueStartsInk(ms.value, to);
    KeyIsRead(ms, Text(ms.value) + to);
    WsThenMark(ms.after, mark);
    ValueEndsExactly(ms.value, to);
    SkipsWs(ms.after, mark);
    ModelKeyExactly(ms.key);
  }

  lemma MembersParts(ms: Members, post: string)
    requires ms.Member?
    ensures MembersText(ms) + post == Head(ms) + (Text(ms.value) + (ms.after + (Sep(ms.rest) + post)))
  {
  }

  lemma MembersStartWithKey(ms: Members, post: string)
    requires ms.Member? && ValidMembers(ms)
    ensures var s := AfterWs(Head(ms) + post); s != "" && s[0] == '"'
  {
    var t := StrText(ms.key) + (ms.gap + ":" + ms.colon + post);
    assert Head(ms) + post == ms.before + t;
    SkipsWs(ms.before, t);
  }

  lemma ReadStep(s: string, found: Found, mark: string, noted: Found)
    requires AfterWs(s) != "" && AfterWs(s)[0] != '}' && AfterMember(s, found) == (mark, Done(noted)) && mark != ""
    ensures mark[0] == ',' ==> ReadMembers(s, found) == ReadMembers(mark[1..], noted)
    ensures mark[0] == '}' ==> ReadMembers(s, found) == Done(noted)
  {
  }

  lemma CommaTail(t: string, tail: string)
    ensures ("," + t) + tail != "" && (("," + t) + tail)[0] == ',' && (("," + t) + tail)[1..] == t + tail
  {
  }

  lemma MarkParts(ms: Members, tail: string)
    requires tail != "" && tail[0] == '}'
    ensures var mark := Sep(ms) + tail;
            mark != "" && if ms.NoMember? then mark[0] == '}' else mark[0] == ',' && mark[1..] == MembersText(ms) + tail
  {
    if ms.NoMember? { assert "" + tail == tail; } else { CommaTail(MembersText(ms), tail); }
  }

  /** The scan finds exactly the last model value. */
  lemma {:induction false} ScanFindsLastModel(ms: Members, tail: string, found: Found)
    requires ms.Member? && ValidMembers(ms) && tail != "" && tail[0] == '}'
    ensures ReadMembers(MembersText(ms) + tail, found) == Done(if HasModel(ms) then LastSpan(ms, tail) else found)
    decreases ms
  {
    var mark := Sep(ms.rest) + tail;
    var from := Text(ms.value) + (ms.after + mark);
    var noted := if Decoded(ms.key) == MODEL then At(from, ms.after + mark) else found;
    MembersParts(ms, tail);
    MarkParts(ms.rest, tail);
    MembersStartWithKey(ms, from);
    MemberIsRead(ms, mark, found);
    ReadStep(Head(ms) + from, found, mark, noted);
    if ms.rest.Member? { ScanFindsLastModel(ms.rest, tail, noted); }
  }

  function Cut(t: string, sp: Found, q: string): string {
    if sp.At? && |sp.from| <= |t| then t[..|t| - |sp.from|] + q + sp.to else t
  }

  lemma CutUnder(front: string, t: string, sp: Found, q: string)
    requires sp.At? && |sp.from| <= |t|
    ensures Cut(front + t, sp, q) == front + Cut(t, sp, q)
  {
    assert (front + t)[..|front + t| - |sp.from|] == front + t[..|t| - |sp.from|];
  }

  /** Cutting out the span found and putting the quoted name there is replacing the last model value. */
  lemma {:induction false} SpliceAtSpan(ms: Members, tail: string, q: seq<Item>)
    requires HasModel(ms)
    ensures var sp := LastSpan(ms, tail); sp.At? && |sp.from| <= |MembersText(ms) + tail|
    ensures Cut(MembersText(ms) + tail, LastSpan(ms, tail), StrText(q)) == MembersText(SetLast(ms, q)) + tail
    decreases ms
  {
    if HasModel(ms.rest) {
      SpliceAtSpan(ms.rest, tail, q);
      SetLastKeepsShape(ms.rest, q);
      SpliceLater(ms, ms.(rest := SetLast(ms.rest, q)), tail, LastSpan(ms.rest, tail), StrText(q));
    } else {
      SpliceHere(ms, tail, q);
    }
  }

  lemma SpliceLater(ms: Members, ms': Members, tail: string, sp: Found, q: string)
    requires ms.Member? && ms.rest.Member? && ms'.Member? && ms'.rest.Member? && ms' == ms.(rest := ms'.rest)
    requires sp.At? && |sp.from| <= |MembersText(ms.rest) + tail|
    requires Cut(MembersText(ms.rest) + tail, sp, q) == MembersText(ms'.rest) + tail
    ensures |sp.from| <= |MembersText(ms) + tail| && Cut(MembersText(ms) + tail, sp, q) == MembersText(ms') + tail
  {
    var front := Head(ms) + Text(ms.value) + ms.after + ",";
    FrontParts(ms, tail, front);
    FrontParts(ms', tail, front);
    CutUnder(front, MembersText(ms.rest) + tail, sp, q);
  }

  lemma {:induction false} SetLastKeepsShape(ms: Members, q: seq<Item>)
    ensures SetLast(ms, q).Member? == ms.Member?
  {
  }

  lemma FrontParts(ms: Members, tail: string, front: string)
    requires ms.Member? && ms.rest.Member? && front == Head(ms) + Text(ms.value) + ms.after + ","
    ensures MembersText(ms) + tail == front + (MembersText(ms.rest) + tail)
  {
    MembersParts(ms, tail);
    Regroup(Head(ms), Text(ms.value), ms.after, MembersText(ms.rest), tail);
  }

  lemma Regroup(a: string, b: string, c: string, d: string, tail: string)
    ensures a + (b + (c + ("," + d + tail))) == a + b + c + "," + (d + tail)
  {
    assert c + ("," + d + tail) == c + "," + (d + tail);
    assert b + (c + "," + (d + tail)) == b + c + "," + (d + tail);
  }

  lemma SpliceHere(ms: Members, tail: string, q: seq<Item>)
    requires ms.Member? && Decoded(ms.key) == MODEL && !HasModel(ms.rest)
    ensures var sp := LastSpan(ms, tail);
            sp.At? && |sp.from| <= |MembersText(ms) + tail|
            && Cut(MembersText(ms) + tail, sp, StrText(q)) == MembersText(ms.(value := Str(q))) + tail
  {
    var sp := LastSpan(ms, tail);
    MembersParts(ms, tail);
    MembersParts(ms.(value := Str(q)), tail);
    CutUnder(Head(ms), sp.from, sp, StrText(q));
    assert sp.from[..0] + StrText(q) + sp.to == StrText(q) + sp.to;
  }

  /** A whole request body: an object with white space around it. */
  datatype Document = Document(before: string, lead: string, members: Members, after: string)

  predicate ValidDocument(d: Document) {
    AllWs(d.before) && AllWs(d.lead) && ValidMembers(d.members) && AllWs(d.after)
  }

  function DocumentText(d: Document): string {
    d.before + Text(Obj(d.lead, d.members)) + d.after
  }

  lemma ObjectText(lead: string, ms: Members, after: string)
    ensures var t := Text(Obj(lead, ms)) + after;
            t != "" && t[0] == '{' && t[1..] == (if ms.NoMember? then lead else MembersText(ms)) + ("}" + after)
  {
    Bracketed(if ms.NoMember? then lead else MembersText(ms), after);
    NestedText(Obj(lead, ms));
  }

  lemma Bracketed(inner: string, after: string)
    ensures var t := ['{'] + inner + ['}'] + after; t != "" && t[0] == '{' && t[1..] == inner + ("}" + after)
  {
  }

  lemma EmptyObjectIsScanned(lead: string, after: string)
    requires AllWs(lead)
    ensures ReadMembers(lead + ("}" + after), Nothing) == Done(Nothing)
  {
    SkipsWs(lead, "}" + after);
  }

  lemma DocumentIsScanned(d: Document)
    requires ValidDocument(d)
    ensures AfterWs(DocumentText(d)) == Text(Obj(d.lead, d.members)) + d.after
    ensures var t := Text(Obj(d.lead, d.members)) + d.after;
            t != "" && t[0] == '{' && ReadMembers(t[1..], Nothing)
            == Done(if HasModel(d.members) then LastSpan(d.members, "}" + d.after) else Nothing)
  {
    var o := Text(Obj(d.lead, d.members));
    ObjectText(d.lead, d.members, d.after);
    assert DocumentText(d) == d.before + (o + d.after);
    SkipsWs(d.before, o + d.after);
    if d.members.NoMember? {
      EmptyObjectIsScanned(d.lead, d.after);
    } else {
      ScanFindsLastModel(d.members, "}" + d.after, Nothing);
    }
  }

  lemma DocumentParts(d: Document)
    requires d.members.Member?
    ensures DocumentText(d) == (d.before + "{") + (MembersText(d.members) + ("}" + d.after))
  {
  }

  lemma DocumentCut(d: Document, q: seq<Item>)
    requires HasModel(d.members)
    ensures var sp := LastSpan(d.members, "}" + d.after);
            sp.At? && |sp.from| <= |DocumentText(d)|
            && Cut(DocumentText(d), sp, StrText(q)) == DocumentText(d.(members := SetLast(d.members, q)))
  {
    var tail := "}" + d.after;
    SpliceAtSpan(d.members, tail, q);
    SetLastKeepsShape(d.members, q);
    DocumentParts(d);
    DocumentParts(d.(members := SetLast(d.members, q)));
    CutUnder(d.before + "{", MembersText(d.members) + tail, LastSpan(d.members, tail), StrText(q));
  }

  lemma AppliedIsCut(body: string, quoted: string, sp: Found)
    requires sp.At? ==> |sp.from| <= |body|
    ensures Apply(body, quoted, Done(sp)) == if sp.At? then Spliced(Cut(body, sp, quoted)) else NoModel
  {
  }

  /**
   * On every well-formed object the splice yields the same object with the value of its last model key
   * replaced, byte for byte otherwise; without a model key it reports that and changes nothing.
   */
  lemma SpliceReplacesLastModelOnly(d: Document, q: seq<Item>)
    requires ValidDocument(d)
    ensures Replace(DocumentText(d), StrText(q))
            == if HasModel(d.members) then Spliced(DocumentText(d.(members := SetLast(d.members, q)))) else NoModel
  {
    DocumentIsScanned(d);
    ReplaceUnfolds(DocumentText(d), StrText(q),
                   Done(if HasModel(d.members) then LastSpan(d.members, "}" + d.after) else Nothing));
    if HasModel(d.members) {
      DocumentCut(d, q);
      AppliedIsCut(DocumentText(d), StrText(q), LastSpan(d.members, "}" + d.after));
    }
  }

  /** The result is again a well-formed object with a model key. */
  lemma {:induction false} SetLastStaysValid(ms: Members, q: seq<Item>)
    requires ValidMembers(ms) && ValidItems(q)
    ensures ValidMembers(SetLast(ms, q)) && HasModel(SetLast(ms, q)) == HasModel(ms)
  {
    if ms.Member? { SetLastStaysValid(ms.rest, q); }
  }

  lemma {:induction false} SetLastTwice(ms: Members, q: seq<Item>, r: seq<Item>)
    requires ValidMembers(ms) && ValidItems(q)
    ensures SetLast(SetLast(ms, q), r) == SetLast(ms, r)
  {
    if ms.Member? {
      SetLastTwice(ms.rest, q, r);
      SetLastStaysValid(ms.rest, q);
    }
  }

  /** A second replacement overrides the first: the order of rewrites leaves no trace. */
  lemma SecondReplacementOverrides(d: Document, first: string, second: string)
    requires ValidDocument(d) && HasModel(d.members)
    ensures var a := Replace(DocumentText(d), StrText(Quote(first)));
            a.Spliced? && Replace(a.out, StrText(Quote(second))) == Replace(DocumentText(d), StrText(Quote(second)))
  {
    QuoteRoundTrip(first);
    SpliceReplacesLastModelOnly(d, Quote(first));
    SpliceReplacesLastModelOnly(d, Quote(second));
    SetLastStaysValid(d.members, Quote(first));
    SetLastTwice(d.members, Quote(first), Quote(second));
    SpliceReplacesLastModelOnly(d.(members := SetLast(d.members, Quote(first))), Quote(second));
  }

  /** The model a decoder that matches the key exactly reads: the last value of that key, if it is a string. */
  function ModelOf(ms: Members): Option<seq<nat>> {
    if ms.NoMember? then None
    else if HasModel(ms.rest) then ModelOf(ms.rest)
    else if Decoded(ms.key) == MODEL && ms.value.Str? then Some(Decoded(ms.value.items))
    else None
  }

  /** After the splice, such a decoder reads back the name that was written. */
  lemma {:induction false} SplicedModelReadsBack(ms: Members, name: string)
    requires ValidMembers(ms) && HasModel(ms)
    ensures ModelOf(SetLast(ms, Quote(name))) == Some(Codes(name))
  {
    QuoteRoundTrip(name);
    if HasModel(ms.rest) {
      SplicedModelReadsBack(ms.rest, name);
      SetLastStaysValid(ms.rest, Quote(name));
    }
  }
}
