/**
 * What the handlers read after a splice. Go's decoder binds a struct field to every key that equals its name up to
 * case, in order: a string sets the field, null leaves it, anything else is an error (internal/api/middleware.go).
 */
module ModelBinding {
  import opened Prelude
  import opened Json
  import opened Splice
  import opened SpliceLaws

  function FoldCode(c: nat): nat {
    if 65 <= c <= 90 then c + 32 else c
  }

  function Fold(s: seq<nat>): seq<nat> {
    seq(|s|, i requires 0 <= i < |s| => FoldCode(s[i]))
  }

  predicate NamesModel(key: seq<Item>) {
    Fold(Decoded(key)) == MODEL
  }

  predicate Binds(v: Value) {
    v.Str? || v == Word("null")
  }

  /** The field after decoding the members into a struct whose field holds `field`; None is a decoding error. */
  function Bound(ms: Members, field: seq<nat>): Option<seq<nat>> {
    if ms.NoMember? then Some(field)
    else if !NamesModel(ms.key) then Bound(ms.rest, field)
    else match ms.value
      case Str(items) => Bound(ms.rest, Decoded(items))
      case v => if Binds(v) then Bound(ms.rest, field) else None
  }

  // ----- an independent reading

  /** Every variant of the key holds something the field can take. */
  predicate AllBind(ms: Members) {
    ms.Member? ==> (NamesModel(ms.key) ==> Binds(ms.value)) && AllBind(ms.rest)
  }

  /** ... leaving aside the value of the last exact key. */
  predicate OthersBind(ms: Members)
    requires HasModel(ms)
  {
    if HasModel(ms.rest) then (NamesModel(ms.key) ==> Binds(ms.value)) && OthersBind(ms.rest) else AllBind(ms.rest)
  }

  /** The last string under a variant of the key. */
  function LastString(ms: Members): Option<seq<nat>> {
    if ms.NoMember? then None
    else if LastString(ms.rest).Some? then LastString(ms.rest)
    else if NamesModel(ms.key) && ms.value.Str? then Some(Decoded(ms.value.items))
    else None
  }

  /** The members after the last exact key. */
  function AfterModel(ms: Members): Members
    requires HasModel(ms)
  {
    if HasModel(ms.rest) then AfterModel(ms.rest) else ms.rest
  }

  lemma {:induction false} BoundIsLastString(ms: Members, field: seq<nat>)
    ensures Bound(ms, field)
            == if AllBind(ms) then Some(if LastString(ms).Some? then LastString(ms).value else field) else None
  {
    if ms.Member? {
      BoundIsLastString(ms.rest, field);
      if ms.value.Str? { BoundIsLastString(ms.rest, Decoded(ms.value.items)); }
    }
  }

  lemma ExactNames(key: seq<Item>)
    requires Decoded(key) == MODEL
    ensures NamesModel(key)
  {
    assert Fold(MODEL) == MODEL;
  }

  /** After the splice the field holds the new name, unless a later variant of the key holds a string. */
  lemma {:induction false} SplicedBinds(ms: Members, name: string, field: seq<nat>)
    requires ValidMembers(ms) && HasModel(ms)
    ensures var later := LastString(AfterModel(ms));
            Bound(SetLast(ms, Quote(name)), field)
            == if OthersBind(ms) then Some(if later.Some? then later.value else Codes(name)) else None
  {
    QuoteRoundTrip(name);
    if HasModel(ms.rest) {
      SplicedBinds(ms.rest, name, field);
      if ms.value.Str? { SplicedBinds(ms.rest, name, Decoded(ms.value.items)); }
    } else {
      ExactNames(ms.key);
      BoundIsLastString(ms.rest, Codes(name));
    }
  }

  /**
   * After the splice the handlers read the name that was written if and only if every other variant of the key holds a
   * string or null, and the last string under a variant after the last exact key, if there is one, is that same name.
   */
  lemma HandlersReadTheNameIff(ms: Members, name: string)
    requires ValidMembers(ms) && HasModel(ms)
    ensures Bound(SetLast(ms, Quote(name)), []) == Some(Codes(name))
            <==> && OthersBind(ms)
                 && (LastString(AfterModel(ms)).None? || LastString(AfterModel(ms)) == Some(Codes(name)))
  {
    SplicedBinds(ms, name, []);
  }
}
