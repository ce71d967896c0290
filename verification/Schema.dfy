/** How json.Unmarshal fills struct fields from a parsed body (pkg/hasher/providers).

    A field takes the last member of its name; null and absence leave it empty; another JSON type is an
    error, modelled as None. Values of type interface{} are decoded, everything else keeps its shape. */
module Schema {
  import opened Wrappers
  import opened Json
  import opened JsonProofs
  import opened CanonicalJson

  function TextField(ms: seq<Member>, key: string): Option<string> {
    match Last(ms, key)
    case None => Some("")
    case Some(Null) => Some("")
    case Some(String(s)) => Some(s)
    case _ => None
  }

  function ListField(ms: seq<Member>, key: string): Option<seq<Json>> {
    match Last(ms, key)
    case None => Some([])
    case Some(Null) => Some([])
    case Some(Array(items)) => Some(items)
    case _ => None
  }

  /** An interface{} field: None inside when nil. */
  function AnyField(fl: Floats, ms: seq<Member>, key: string): Option<Option<Json>> {
    match Last(ms, key)
    case None => Some(None)
    case Some(Null) => Some(None)
    case Some(v) => var d := Decoded(fl, v); if d.Some? then Some(d) else None
  }

  /** A map[string]interface{} field: null when nil. */
  function MapField(fl: Floats, ms: seq<Member>, key: string): Option<Json> {
    match Last(ms, key)
    case None => Some(Null)
    case Some(Null) => Some(Null)
    case Some(Object(members)) => Decoded(fl, Object(members))
    case _ => None
  }

  /** A *float64 field. */
  function FloatField(fl: Floats, ms: seq<Member>, key: string): Option<Option<Json>> {
    match Last(ms, key)
    case None => Some(None)
    case Some(Null) => Some(None)
    case Some(Number(t)) => var d := Decoded(fl, Number(t)); if d.Some? then Some(d) else None
    case _ => None
  }

  function Digits(s: string): nat {
    if s == "" || !IsDigit(s[|s| - 1]) then 0 else 10 * Digits(s[..|s| - 1]) + (s[|s| - 1] as int - '0' as int)
  }

  /** The printed form of a token that is a 64-bit integer without fraction or exponent. */
  function Int64(token: string): Option<string> {
    var negative := token != "" && token[0] == '-';
    var digits := if negative then token[1..] else token;
    if digits == "" || Span(digits, IsDigit) != |digits|
        || Digits(digits) > (if negative then 0x8000_0000_0000_0000 else 0x7fff_ffff_ffff_ffff)
    then None
    else if token == "-0" then Some("0") else Some(token)
  }

  /** An *int field. */
  function IntField(ms: seq<Member>, key: string): Option<Option<Json>> {
    match Last(ms, key)
    case None => Some(None)
    case Some(Null) => Some(None)
    case Some(Number(t)) => if Int64(t).Some? then Some(Some(Number(Int64(t).value))) else None
    case _ => None
  }

  /** The members a struct is filled from; null leaves it zero. */
  function StructMembers(v: Json): Option<seq<Member>> {
    match v
    case Null => Some([])
    case Object(members) => Some(members)
    case _ => None
  }

  function StructField(ms: seq<Member>, key: string): Option<seq<Member>> {
    match Last(ms, key)
    case None => Some([])
    case Some(v) => StructMembers(v)
  }

  /** All elements of a list through `f`, or None if one fails. */
  function Collect<T>(items: seq<Json>, f: Json -> Option<T>): Option<seq<T>> {
    if items == [] then Some([])
    else
      var first, rest := f(items[0]), Collect(items[1..], f);
      if first.Some? && rest.Some? then Some([first.value] + rest.value) else None
  }

  /** A slice field, with `f` for its elements. */
  function ParseList<T>(ms: seq<Member>, key: string, f: Json -> Option<T>): Option<seq<T>> {
    match ListField(ms, key)
    case None => None
    case Some(items) => Collect(items, f)
  }

  // Values that differ only in member order and overwritten duplicates.

  /** Numbers compared by token. */
  const Exact := Floats((t: string) => Some(t))

  ghost predicate Agree(a: Option<Json>, b: Option<Json>) {
    match (a, b)
    case (Some(v), Some(w)) => Same(Exact, v, w)
    case _ => a == b
  }

  lemma {:induction false} SameTokensSameValue(fl: Floats, v: Json, w: Json)
    requires Same(Exact, v, w)
    ensures Same(fl, v, w)
    decreases v
  {
    match (v, w) {
      case (Number(t), Number(u)) => assert Exact.canon(t) == Some(t) && Exact.canon(u) == Some(u);
      case (Array(a), Array(b)) =>
        forall i | 0 <= i < |a| ensures Same(fl, a[i], b[i]) { SameTokensSameValue(fl, a[i], b[i]); }
      case (Object(a), Object(b)) =>
        forall i: nat, j: nat | i < |a| && j < |b| && Wins(a, i) && Wins(b, j) && a[i].key == b[j].key
          ensures Same(fl, a[i].value, b[j].value)
        {
          SameTokensSameValue(fl, a[i].value, b[j].value);
        }
      case _ =>
    }
  }

  /** Equal objects give equal fields. */
  lemma SameObjectsAgree(a: seq<Member>, b: seq<Member>, key: string)
    requires Same(Exact, Object(a), Object(b))
    ensures Agree(Last(a, key), Last(b, key))
  {
    var i := LastIsWinner(a, key);
    var j := LastIsWinner(b, key);
    HasKeyIffLast(a, key);
    HasKeyIffLast(b, key);
    if Last(a, key).Some? && Last(b, key).Some? { assert Same(Exact, a[i].value, b[j].value); }
  }

  lemma DecodedAgree(fl: Floats, v: Json, w: Json)
    requires fl.Sound() && Same(Exact, v, w) && NumbersValid(v) && NumbersValid(w)
    requires Decoded(fl, v).Some? && Decoded(fl, w).Some?
    ensures Decoded(fl, v) == Decoded(fl, w)
  {
    SameTokensSameValue(fl, v, w);
    DecodedAlikeIffSame(fl, v, w);
  }

  lemma {:induction false} LastValid(ms: seq<Member>, key: string)
    requires MembersValid(ms)
    ensures Last(ms, key).Some? ==> NumbersValid(Last(ms, key).value)
  {
    if ms != [] {
      MembersValidPrefix(ms);
      LastValid(ms[..|ms| - 1], key);
    }
  }

  /** Fields of agreeing members that are both accepted have equal values. */
  lemma FieldsAgree(fl: Floats, a: seq<Member>, b: seq<Member>, key: string)
    requires fl.Sound() && MembersValid(a) && MembersValid(b) && Agree(Last(a, key), Last(b, key))
    ensures TextField(a, key) == TextField(b, key)
    ensures IntField(a, key) == IntField(b, key)
    ensures FloatField(fl, a, key) == FloatField(fl, b, key)
    ensures AnyField(fl, a, key).Some? && AnyField(fl, b, key).Some? ==> AnyField(fl, a, key) == AnyField(fl, b, key)
    ensures MapField(fl, a, key).Some? && MapField(fl, b, key).Some? ==> MapField(fl, a, key) == MapField(fl, b, key)
  {
    LastValid(a, key);
    LastValid(b, key);
    if Last(a, key).Some? {
      var v, w := Last(a, key).value, Last(b, key).value;
      if v.Number? { assert Exact.canon(v.token) == Some(v.token) && Exact.canon(w.token) == Some(w.token); }
      if Decoded(fl, v).Some? && Decoded(fl, w).Some? { DecodedAgree(fl, v, w); }
    }
  }

  /** Agreeing lists whose elements are all accepted have equal elements. */
  lemma {:induction false} CollectAgree<T>(a: seq<Json>, b: seq<Json>, f: Json -> Option<T>)
    requires |a| == |b| && Collect(a, f).Some? && Collect(b, f).Some?
    requires forall i | 0 <= i < |a| :: f(a[i]).Some? && f(b[i]).Some? ==> f(a[i]) == f(b[i])
    ensures Collect(a, f) == Collect(b, f)
  {
    if a != [] {
      assert f(a[0]) == f(b[0]);
      CollectAgree(a[1..], b[1..], f);
    }
  }

  lemma ObjectFieldsAgree(fl: Floats, a: seq<Member>, b: seq<Member>, key: string)
    requires fl.Sound() && MembersValid(a) && MembersValid(b) && Same(Exact, Object(a), Object(b))
    ensures Agree(Last(a, key), Last(b, key))
    ensures TextField(a, key) == TextField(b, key)
    ensures AnyField(fl, a, key).Some? && AnyField(fl, b, key).Some? ==> AnyField(fl, a, key) == AnyField(fl, b, key)
    ensures MapField(fl, a, key).Some? && MapField(fl, b, key).Some? ==> MapField(fl, a, key) == MapField(fl, b, key)
  {
    SameObjectsAgree(a, b, key);
    FieldsAgree(fl, a, b, key);
  }

  lemma {:induction false} ItemsPointwise(items: seq<Json>)
    requires ItemsValid(items)
    ensures forall i | 0 <= i < |items| :: NumbersValid(items[i])
  {
    if items != [] { ItemsPointwise(items[1..]); }
  }

  /** `f` gives equal results on the same value, when it accepts both renderings. */
  ghost predicate Respects<T>(f: Json -> Option<T>) {
    forall v, w | Same(Exact, v, w) && NumbersValid(v) && NumbersValid(w) && f(v).Some? && f(w).Some? :: f(v) == f(w)
  }

  /** Agreeing slice fields that are both accepted have equal elements. */
  lemma ListsAgree<T>(a: seq<Member>, b: seq<Member>, key: string, f: Json -> Option<T>)
    requires MembersValid(a) && MembersValid(b) && Agree(Last(a, key), Last(b, key)) && Respects(f)
    requires ParseList(a, key, f).Some? && ParseList(b, key, f).Some?
    ensures ParseList(a, key, f) == ParseList(b, key, f)
  {
    var x, y := ListField(a, key).value, ListField(b, key).value;
    if Last(a, key).Some? && Last(a, key).value.Array? {
      LastValid(a, key);
      LastValid(b, key);
      ItemsAgree(x, y, f);
    }
    CollectAgree(x, y, f);
  }

  lemma ItemsAgree<T>(x: seq<Json>, y: seq<Json>, f: Json -> Option<T>)
    requires ItemsValid(x) && ItemsValid(y) && Same(Exact, Array(x), Array(y)) && Respects(f)
    ensures |x| == |y| && forall i | 0 <= i < |x| :: f(x[i]).Some? && f(y[i]).Some? ==> f(x[i]) == f(y[i])
  {
    ItemsPointwise(x);
    ItemsPointwise(y);
    assert forall i | 0 <= i < |x| :: Same(Exact, x[i], y[i]);
  }

  // Accepted fields hold number tokens.

  predicate ValidIfAny(v: Option<Json>) {
    v.Some? ==> NumbersValid(v.value)
  }

  lemma FieldsValid(fl: Floats, ms: seq<Member>, key: string)
    requires fl.Sound() && MembersValid(ms)
    ensures AnyField(fl, ms, key).Some? ==> ValidIfAny(AnyField(fl, ms, key).value)
    ensures FloatField(fl, ms, key).Some? ==> ValidIfAny(FloatField(fl, ms, key).value)
    ensures IntField(ms, key).Some? ==> ValidIfAny(IntField(ms, key).value)
    ensures ValidIfAny(MapField(fl, ms, key))
  {
    LastValid(ms, key);
    if Last(ms, key).Some? {
      var v := Last(ms, key).value;
      if Decoded(fl, v).Some? {
        DecodedIsCanonical(fl, v);
        CanonicalIsDecoded(fl, Decoded(fl, v).value);
      }
      assert IsNumber("0") by { assert Span("0", IsDigit) == 1; assert "0"[1..] == ""; }
    }
  }

  lemma {:induction false} CollectedAt<T>(items: seq<Json>, f: Json -> Option<T>, i: nat)
    requires Collect(items, f).Some?
    ensures |Collect(items, f).value| == |items|
    ensures i < |items| ==> f(items[i]) == Some(Collect(items, f).value[i])
  {
    if items != [] { CollectedAt(items[1..], f, if i == 0 then 0 else i - 1); }
  }

  /** Each element of an accepted slice field was read from a value with number tokens. */
  lemma ListElement<T>(ms: seq<Member>, key: string, f: Json -> Option<T>, i: nat) returns (v: Json)
    requires MembersValid(ms) && ParseList(ms, key, f).Some? && i < |ParseList(ms, key, f).value|
    ensures NumbersValid(v) && f(v) == Some(ParseList(ms, key, f).value[i])
  {
    var items := ListField(ms, key).value;
    CollectedAt(items, f, i);
    LastValid(ms, key);
    ItemsPointwise(items);
    v := items[i];
  }

  /** What an interface{} field holds: nothing, or a decoded value other than null. */
  predicate IsDecoded(fl: Floats, content: Option<Json>) {
    content.Some? ==> Canonical(fl, content.value) && !content.value.Null?
  }

  lemma AnyFieldIsDecoded(fl: Floats, ms: seq<Member>, key: string)
    requires fl.Sound() && MembersValid(ms) && AnyField(fl, ms, key).Some?
    ensures IsDecoded(fl, AnyField(fl, ms, key).value)
  {
    LastValid(ms, key);
    if Last(ms, key).Some? && !Last(ms, key).value.Null? { DecodedIsCanonical(fl, Last(ms, key).value); }
  }
}
