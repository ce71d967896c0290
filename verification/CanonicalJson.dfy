/** CanonicalizeJSON (pkg/hasher/canonicalize.go): decode into Go values, encode again.

    A decoded object is a Go map, so its last duplicate wins and it is encoded in key order. Decoded
    objects are kept as member lists sorted by key. */
module CanonicalJson {
  import opened Wrappers
  import opened Ordering
  import opened Json
  import opened JsonProofs

  /** float64 decoding and formatting: the token that encoding/json prints for the number that a token
      denotes, or None when it is out of range. */
  datatype Floats = Floats(canon: string -> Option<string>)
  {
    /** Formatted numbers are number tokens that denote the same number. */
    ghost predicate Sound() {
      forall t :: IsNumber(t) && canon(t).Some? ==> IsNumber(canon(t).value) && canon(canon(t).value) == canon(t)
    }
  }

  function Insert(members: seq<Member>, m: Member): seq<Member> {
    if members == [] then [m]
    else if Less(m.key, members[0].key) then [m] + members
    else if m.key == members[0].key then [m] + members[1..]
    else [members[0]] + Insert(members[1..], m)
  }

  /** The decoded form of a parsed value, or None if some number is out of range. */
  function Decoded(fl: Floats, v: Json): Option<Json>
    decreases v, 0
  {
    match v
    case Number(token) => var t := fl.canon(token); if t.Some? then Some(Number(t.value)) else None
    case Array(items) => var r := DecodedItems(fl, items); if r.Some? then Some(Array(r.value)) else None
    case Object(members) => var r := DecodedMembers(fl, members); if r.Some? then Some(Object(r.value)) else None
    case _ => Some(v)
  }

  function DecodedItems(fl: Floats, items: seq<Json>): (r: Option<seq<Json>>)
    ensures r.Some? ==> |r.value| == |items|
    decreases items, 0
  {
    if items == [] then Some([])
    else
      var first, rest := Decoded(fl, items[0]), DecodedItems(fl, items[1..]);
      if first.Some? && rest.Some? then Some([first.value] + rest.value) else None
  }

  /** Members are assigned into the map in text order. */
  function DecodedMembers(fl: Floats, members: seq<Member>): Option<seq<Member>>
    decreases members, 0
  {
    if members == [] then Some([])
    else
      var n := |members| - 1;
      var before, last := DecodedMembers(fl, members[..n]), Decoded(fl, members[n].value);
      if before.Some? && last.Some? then Some(Insert(before.value, Member(members[n].key, last.value))) else None
  }

  function Decode(fl: Floats, text: string): Option<Json> {
    var v := Parse(text);
    if v.Some? then Decoded(fl, v.value) else None
  }

  datatype Canonicalized = Canonicalized(text: string, valid: bool)

  /** The canonical text, or the input and an error. */
  function CanonicalizeJSON(fl: Floats, raw: string): Canonicalized {
    var v := Decode(fl, raw);
    if v.Some? then Canonicalized(Print(v.value, false), true) else Canonicalized(raw, false)
  }

  // Reference: when two parsed values denote the same Go value.

  predicate Wins(members: seq<Member>, i: nat) {
    i < |members| && forall j | i < j < |members| :: members[j].key != members[i].key
  }

  /** What a Go map filled from the members answers. */
  function Last(members: seq<Member>, key: string): Option<Json> {
    if members == [] then None
    else if members[|members| - 1].key == key then Some(members[|members| - 1].value)
    else Last(members[..|members| - 1], key)
  }

  ghost predicate HasKey(members: seq<Member>, key: string) {
    exists i :: 0 <= i < |members| && members[i].key == key
  }

  /** Same decoded value: numbers by what they decode to, objects as maps in which the last duplicate
      wins, in any member order. */
  ghost predicate Same(fl: Floats, v: Json, w: Json)
    decreases v
  {
    match (v, w)
    case (Number(t), Number(u)) => fl.canon(t) == fl.canon(u)
    case (Array(a), Array(b)) => |a| == |b| && forall i | 0 <= i < |a| :: Same(fl, a[i], b[i])
    case (Object(a), Object(b)) =>
      && (forall key :: HasKey(a, key) <==> HasKey(b, key))
      && (forall i: nat, j: nat | i < |a| && j < |b| && Wins(a, i) && Wins(b, j) && a[i].key == b[j].key ::
            Same(fl, a[i].value, b[j].value))
    case _ => v == w
  }

  // Sorted member lists.

  function First(members: seq<Member>, key: string): Option<Json> {
    if members == [] then None
    else if members[0].key == key then Some(members[0].value)
    else First(members[1..], key)
  }

  predicate Sorted(members: seq<Member>) {
    forall i, j | 0 <= i < j < |members| :: Less(members[i].key, members[j].key)
  }

  lemma {:induction false} InsertedFirst(members: seq<Member>, m: Member, key: string)
    ensures First(Insert(members, m), key) == if key == m.key then Some(m.value) else First(members, key)
  {
    if members != [] && !Less(m.key, members[0].key) && m.key != members[0].key {
      InsertedFirst(members[1..], m, key);
    }
  }

  lemma {:induction false} InsertedFrom(members: seq<Member>, m: Member, i: nat)
    requires i < |Insert(members, m)|
    ensures Insert(members, m)[i] == m || Insert(members, m)[i] in members
  {
    if members != [] && !Less(m.key, members[0].key) && m.key != members[0].key && i > 0 {
      InsertedFrom(members[1..], m, i - 1);
    }
  }

  lemma {:induction false} InsertKeepsSorted(members: seq<Member>, m: Member)
    requires Sorted(members)
    ensures Sorted(Insert(members, m))
  {
    if members != [] {
      var r := Insert(members, m);
      if Less(m.key, members[0].key) {
        forall j | 0 < j < |members| ensures Less(m.key, members[j].key) {
          LessTransitive(m.key, members[0].key, members[j].key);
        }
      } else if m.key != members[0].key {
        LessTotal(m.key, members[0].key);
        InsertKeepsSorted(members[1..], m);
        forall j | 0 < j < |r| ensures Less(r[0].key, r[j].key) {
          InsertedFrom(members[1..], m, j - 1);
        }
      }
    }
  }

  lemma {:induction false} NotBeforeFirst(members: seq<Member>, key: string)
    requires Sorted(members) && (members == [] || Less(key, members[0].key))
    ensures First(members, key).None?
  {
    if members != [] {
      LessAsymmetric(key, members[0].key);
      if |members| > 1 { LessTransitive(key, members[0].key, members[1].key); }
      NotBeforeFirst(members[1..], key);
    }
  }

  lemma FirstIsThere(a: seq<Member>)
    requires a != []
    ensures First(a, a[0].key) == Some(a[0].value)
  {
  }

  /** Sorted member lists that answer every key alike are equal. */
  lemma {:induction false} SortedExtensional(a: seq<Member>, b: seq<Member>)
    requires Sorted(a) && Sorted(b) && forall key :: First(a, key) == First(b, key)
    ensures a == b
  {
    if a == [] || b == [] {
      if a != [] { FirstIsThere(a); }
      if b != [] { FirstIsThere(b); }
    } else {
      SameHead(a, b);
      NotBeforeFirst(a[1..], a[0].key);
      NotBeforeFirst(b[1..], b[0].key);
      forall key ensures First(a[1..], key) == First(b[1..], key) {
        assert First(a, key) == First(b, key);
      }
      SortedExtensional(a[1..], b[1..]);
      assert a == [a[0]] + a[1..] && b == [b[0]] + b[1..];
    }
  }

  lemma SameHead(a: seq<Member>, b: seq<Member>)
    requires Sorted(a) && Sorted(b) && a != [] && b != [] && forall key :: First(a, key) == First(b, key)
    ensures a[0] == b[0]
  {
    assert First(a, a[0].key) == Some(a[0].value) && First(b, b[0].key) == Some(b[0].value);
    if a[0].key != b[0].key {
      LessTotal(a[0].key, b[0].key);
      if Less(a[0].key, b[0].key) { NotBeforeFirst(b, a[0].key); } else { NotBeforeFirst(a, b[0].key); }
    }
  }

  // Decoding yields normal forms.

  /** A decoded value: sorted objects and formatted numbers throughout. */
  predicate Canonical(fl: Floats, v: Json)
    decreases v, 0
  {
    match v
    case Number(token) => IsNumber(token) && fl.canon(token) == Some(token)
    case Array(items) => forall i | 0 <= i < |items| :: Canonical(fl, items[i])
    case Object(members) => Sorted(members) && forall i | 0 <= i < |members| :: Canonical(fl, members[i].value)
    case _ => true
  }

  lemma {:induction false} DecodedIsCanonical(fl: Floats, v: Json)
    requires fl.Sound() && NumbersValid(v) && Decoded(fl, v).Some?
    ensures Canonical(fl, Decoded(fl, v).value)
    decreases v, 0
  {
    match v {
      case Array(items) => DecodedItemsAreCanonical(fl, items);
      case Object(members) => DecodedMembersAreCanonical(fl, members);
      case _ =>
    }
  }

  lemma {:induction false} DecodedItemsAreCanonical(fl: Floats, items: seq<Json>)
    requires fl.Sound() && ItemsValid(items) && DecodedItems(fl, items).Some?
    ensures forall i | 0 <= i < |items| :: Canonical(fl, DecodedItems(fl, items).value[i])
    decreases items, 0
  {
    if items != [] {
      DecodedIsCanonical(fl, items[0]);
      DecodedItemsAreCanonical(fl, items[1..]);
    }
  }

  lemma {:induction false} MembersValidPrefix(members: seq<Member>)
    requires members != [] && MembersValid(members)
    ensures MembersValid(members[..|members| - 1]) && NumbersValid(members[|members| - 1].value)
  {
    if |members| > 1 {
      MembersValidPrefix(members[1..]);
      assert members[1..][..|members| - 2] == members[..|members| - 1][1..];
    }
  }

  lemma {:induction false} DecodedMembersAreCanonical(fl: Floats, members: seq<Member>)
    requires fl.Sound() && MembersValid(members) && DecodedMembers(fl, members).Some?
    ensures Canonical(fl, Object(DecodedMembers(fl, members).value))
    decreases members, 0
  {
    if members != [] {
      var n := |members| - 1;
      MembersValidPrefix(members);
      DecodedMembersAreCanonical(fl, members[..n]);
      DecodedIsCanonical(fl, members[n].value);
      var before, m := DecodedMembers(fl, members[..n]).value,
        Member(members[n].key, Decoded(fl, members[n].value).value);
      InsertKeepsSorted(before, m);
      var r := Insert(before, m);
      forall i | 0 <= i < |r| ensures Canonical(fl, r[i].value) { InsertedFrom(before, m, i); }
    }
  }

  lemma {:induction false} CanonicalIsDecoded(fl: Floats, v: Json)
    requires Canonical(fl, v)
    ensures Decoded(fl, v) == Some(v) && NumbersValid(v)
    decreases v, 0
  {
    match v {
      case Array(items) => CanonicalItemsAreDecoded(fl, items);
      case Object(members) => CanonicalMembersAreDecoded(fl, members); CanonicalMembersAreValid(fl, members);
      case _ =>
    }
  }

  lemma {:induction false} CanonicalItemsAreDecoded(fl: Floats, items: seq<Json>)
    requires forall i | 0 <= i < |items| :: Canonical(fl, items[i])
    ensures DecodedItems(fl, items) == Some(items) && ItemsValid(items)
    decreases items, 0
  {
    if items != [] {
      CanonicalIsDecoded(fl, items[0]);
      CanonicalItemsAreDecoded(fl, items[1..]);
      assert items == [items[0]] + items[1..];
    }
  }

  lemma {:induction false} CanonicalMembersAreValid(fl: Floats, members: seq<Member>)
    requires forall i | 0 <= i < |members| :: Canonical(fl, members[i].value)
    ensures MembersValid(members)
    decreases members, 0
  {
    if members != [] {
      CanonicalIsDecoded(fl, members[0].value);
      CanonicalMembersAreValid(fl, members[1..]);
    }
  }

  lemma {:induction false} InsertAtEnd(members: seq<Member>, m: Member)
    requires forall i | 0 <= i < |members| :: Less(members[i].key, m.key)
    ensures Insert(members, m) == members + [m]
  {
    if members != [] {
      LessAsymmetric(members[0].key, m.key);
      InsertAtEnd(members[1..], m);
      assert members == [members[0]] + members[1..];
    }
  }

  lemma {:induction false} CanonicalMembersAreDecoded(fl: Floats, members: seq<Member>)
    requires Sorted(members) && forall i | 0 <= i < |members| :: Canonical(fl, members[i].value)
    ensures DecodedMembers(fl, members) == Some(members)
    decreases members, 0
  {
    if members != [] {
      var n := |members| - 1;
      CanonicalMembersAreDecoded(fl, members[..n]);
      CanonicalIsDecoded(fl, members[n].value);
      InsertAtEnd(members[..n], members[n]);
      assert members == members[..n] + [members[n]];
    }
  }

  // Equal normal forms are equal values.

  /** A decoded object answers a key with the decoded value of its last duplicate. */
  lemma {:induction false} DecodedAnswers(fl: Floats, members: seq<Member>, key: string)
    requires DecodedMembers(fl, members).Some?
    ensures var r := First(DecodedMembers(fl, members).value, key);
            r == if Last(members, key).None? then None else Decoded(fl, Last(members, key).value)
    ensures Last(members, key).Some? ==> Decoded(fl, Last(members, key).value).Some?
  {
    if members != [] {
      var n := |members| - 1;
      var before, m := DecodedMembers(fl, members[..n]).value,
        Member(members[n].key, Decoded(fl, members[n].value).value);
      DecodedAnswers(fl, members[..n], key);
      InsertedFirst(before, m, key);
    }
  }

  lemma {:induction false} LastIsWinner(ms: seq<Member>, key: string) returns (i: nat)
    ensures Last(ms, key).None? ==> forall k | 0 <= k < |ms| :: ms[k].key != key
    ensures Last(ms, key).Some? ==> Wins(ms, i) && ms[i].key == key && Last(ms, key) == Some(ms[i].value)
  {
    i := 0;
    if ms != [] {
      var n := |ms| - 1;
      if ms[n].key == key { i := n; }
      else {
        i := LastIsWinner(ms[..n], key);
        if Last(ms, key).Some? { assert ms[..n][i] == ms[i]; }
      }
    }
  }

  lemma {:induction false} WinnerIsLast(ms: seq<Member>, i: nat)
    requires Wins(ms, i)
    ensures Last(ms, ms[i].key) == Some(ms[i].value)
  {
    var n := |ms| - 1;
    if i < n {
      assert ms[..n][i] == ms[i] && ms[n].key != ms[i].key;
      WinnerIsLast(ms[..n], i);
    }
  }

  lemma HasKeyIffLast(ms: seq<Member>, key: string)
    ensures HasKey(ms, key) <==> Last(ms, key).Some?
  {
    var i := LastIsWinner(ms, key);
  }

  /** Two values decode alike exactly when they are the same value. */
  lemma {:induction false} DecodedAlikeIffSame(fl: Floats, v: Json, w: Json)
    requires fl.Sound() && NumbersValid(v) && NumbersValid(w) && Decoded(fl, v).Some? && Decoded(fl, w).Some?
    ensures Decoded(fl, v) == Decoded(fl, w) <==> Same(fl, v, w)
    decreases v
  {
    match (v, w) {
      case (Array(a), Array(b)) =>
        if |a| == |b| {
          forall i | 0 <= i < |a|
            ensures DecodedItems(fl, a).value[i] == DecodedItems(fl, b).value[i] <==> Same(fl, a[i], b[i])
          {
            ItemAt(fl, a, i);
            ItemAt(fl, b, i);
            DecodedAlikeIffSame(fl, a[i], b[i]);
          }
          var x, y := DecodedItems(fl, a).value, DecodedItems(fl, b).value;
          assert x == y <==> forall i | 0 <= i < |a| :: x[i] == y[i];
        }
      case (Object(a), Object(b)) =>
        forall i: nat, j: nat | i < |a| && j < |b| && Wins(a, i) && Wins(b, j) && a[i].key == b[j].key
          ensures Decoded(fl, a[i].value) == Decoded(fl, b[j].value) <==> Same(fl, a[i].value, b[j].value)
        {
          MemberAt(fl, a, i);
          MemberAt(fl, b, j);
          DecodedAlikeIffSame(fl, a[i].value, b[j].value);
        }
        ObjectsAlikeIffSame(fl, a, b);
      case _ =>
    }
  }

  lemma {:induction false} ItemAt(fl: Floats, items: seq<Json>, i: nat)
    requires i < |items| && ItemsValid(items) && DecodedItems(fl, items).Some?
    ensures NumbersValid(items[i]) && Decoded(fl, items[i]) == Some(DecodedItems(fl, items).value[i])
  {
    if i > 0 { ItemAt(fl, items[1..], i - 1); }
  }

  lemma {:induction false} MemberAt(fl: Floats, members: seq<Member>, i: nat)
    requires i < |members| && MembersValid(members) && DecodedMembers(fl, members).Some?
    ensures NumbersValid(members[i].value) && Decoded(fl, members[i].value).Some?
  {
    MembersValidPrefix(members);
    if i < |members| - 1 { MemberAt(fl, members[..|members| - 1], i); }
  }

  lemma ObjectsAlikeIffSame(fl: Floats, a: seq<Member>, b: seq<Member>)
    requires fl.Sound() && MembersValid(a) && MembersValid(b)
             && DecodedMembers(fl, a).Some? && DecodedMembers(fl, b).Some?
    requires forall i: nat, j: nat | i < |a| && j < |b| && Wins(a, i) && Wins(b, j) && a[i].key == b[j].key ::
               Decoded(fl, a[i].value) == Decoded(fl, b[j].value) <==> Same(fl, a[i].value, b[j].value)
    ensures DecodedMembers(fl, a) == DecodedMembers(fl, b) <==> Same(fl, Object(a), Object(b))
  {
    var x, y := DecodedMembers(fl, a).value, DecodedMembers(fl, b).value;
    if Same(fl, Object(a), Object(b)) {
      forall key ensures First(x, key) == First(y, key) {
        DecodedAnswers(fl, a, key);
        DecodedAnswers(fl, b, key);
        HasKeyIffLast(a, key);
        HasKeyIffLast(b, key);
        var i := LastIsWinner(a, key);
        var j := LastIsWinner(b, key);
        if HasKey(a, key) { assert HasKey(b, key); assert Same(fl, a[i].value, b[j].value); }
      }
      DecodedMembersAreCanonical(fl, a);
      DecodedMembersAreCanonical(fl, b);
      SortedExtensional(x, y);
    }
    if x == y {
      forall key ensures HasKey(a, key) <==> HasKey(b, key) {
        DecodedAnswers(fl, a, key);
        DecodedAnswers(fl, b, key);
        HasKeyIffLast(a, key);
        HasKeyIffLast(b, key);
      }
      forall i: nat, j: nat | i < |a| && j < |b| && Wins(a, i) && Wins(b, j) && a[i].key == b[j].key
        ensures Same(fl, a[i].value, b[j].value)
      {
        DecodedAnswers(fl, a, a[i].key);
        DecodedAnswers(fl, b, a[i].key);
        WinnerIsLast(a, i);
        WinnerIsLast(b, j);
      }
    }
  }

  // Parsed numbers are numbers.

  lemma {:induction false} LexedAreValid(s: string)
    requires Lex(s).Some?
    ensures forall i | 0 <= i < |Lex(s).value| :: ValidToken(Lex(s).value[i])
    decreases |s|
  {
    if s != "" {
      if IsBlank(s[0]) { LexedAreValid(s[1..]); }
      else { LexedAreValid(s[NextToken(s).value.length..]); }
    }
  }

  predicate AllValid(ts: seq<Token>) {
    ts == [] || (ValidToken(ts[0]) && AllValid(ts[1..]))
  }

  lemma {:induction false} AllValidPointwise(ts: seq<Token>)
    requires forall i | 0 <= i < |ts| :: ValidToken(ts[i])
    ensures AllValid(ts)
  {
    if ts != [] { AllValidPointwise(ts[1..]); }
  }

  lemma {:induction false} RenderedNumbersValid(v: Json, rest: seq<Token>)
    requires AllValid(TokensThen(v, rest))
    ensures NumbersValid(v) && AllValid(rest)
    decreases v, 0
  {
    assert TokensThen(v, rest)[1..] == match v
      case Array(items) => ItemsThen(items, [RBracket] + rest)
      case Object(members) => MembersThen(members, [RBrace] + rest)
      case _ => rest;
    match v {
      case Array(items) =>
        if items != [] {
          RenderedNumbersValid(items[0], MoreItemsThen(items[1..], [RBracket] + rest));
          RenderedMoreItems(items[1..], [RBracket] + rest);
        }
        assert ([RBracket] + rest)[1..] == rest;
      case Object(members) =>
        if members != [] {
          RenderedMember(members[0], MoreMembersThen(members[1..], [RBrace] + rest));
          RenderedMoreMembers(members[1..], [RBrace] + rest);
        }
        assert ([RBrace] + rest)[1..] == rest;
      case _ =>
    }
  }

  lemma {:induction false} RenderedMoreItems(items: seq<Json>, rest: seq<Token>)
    requires AllValid(MoreItemsThen(items, rest))
    ensures ItemsValid(items) && AllValid(rest)
    decreases items, 0
  {
    if items != [] {
      assert MoreItemsThen(items, rest)[1..] == TokensThen(items[0], MoreItemsThen(items[1..], rest));
      RenderedNumbersValid(items[0], MoreItemsThen(items[1..], rest));
      RenderedMoreItems(items[1..], rest);
    }
  }

  lemma {:induction false} RenderedMember(m: Member, rest: seq<Token>)
    requires AllValid(MemberThen(m, rest))
    ensures NumbersValid(m.value) && AllValid(rest)
    decreases m, 1
  {
    assert MemberThen(m, rest)[1..][1..] == TokensThen(m.value, rest);
    RenderedNumbersValid(m.value, rest);
  }

  lemma {:induction false} RenderedMoreMembers(members: seq<Member>, rest: seq<Token>)
    requires AllValid(MoreMembersThen(members, rest))
    ensures MembersValid(members) && AllValid(rest)
    decreases members, 0
  {
    if members != [] {
      assert MoreMembersThen(members, rest)[1..] == MemberThen(members[0], MoreMembersThen(members[1..], rest));
      RenderedMember(members[0], MoreMembersThen(members[1..], rest));
      RenderedMoreMembers(members[1..], rest);
    }
  }

  lemma ParsedNumbersValid(text: string)
    requires Parse(text).Some?
    ensures NumbersValid(Parse(text).value)
  {
    LexedAreValid(text);
    AllValidPointwise(Lex(text).value);
    ParsedIsTokens(Lex(text).value);
    RenderedNumbersValid(Parse(text).value, []);
  }

  // CanonicalizeJSON.

  /** Two texts that both canonicalize get equal results exactly when they denote the same value, whatever
      their member order, duplicates, whitespace, escapes and number spellings. */
  lemma CanonicalIffSame(fl: Floats, text1: string, text2: string)
    requires fl.Sound() && CanonicalizeJSON(fl, text1).valid && CanonicalizeJSON(fl, text2).valid
    ensures CanonicalizeJSON(fl, text1).text == CanonicalizeJSON(fl, text2).text <==>
            Same(fl, Parse(text1).value, Parse(text2).value)
  {
    var v, w := Parse(text1).value, Parse(text2).value;
    ParsedNumbersValid(text1);
    ParsedNumbersValid(text2);
    DecodedIsCanonical(fl, v);
    DecodedIsCanonical(fl, w);
    var x, y := Decoded(fl, v).value, Decoded(fl, w).value;
    CanonicalIsDecoded(fl, x);
    CanonicalIsDecoded(fl, y);
    DecodedAlikeIffSame(fl, v, w);
    if Print(x, false) == Print(y, false) { PrintIsInjective(x, y, false); }
  }

  /** Decoding what was printed for a decoded value gives it back, with or without HTML escaping. */
  lemma DecodePrinted(fl: Floats, v: Json, html: bool)
    requires Canonical(fl, v)
    ensures Decode(fl, Print(v, html)) == Some(v)
    ensures CanonicalizeJSON(fl, Print(v, html)) == Canonicalized(Print(v, false), true)
  {
    CanonicalIsDecoded(fl, v);
    PrintParsesBack(v, html);
  }

  /** Canonicalizing again changes nothing, for valid and invalid texts. */
  lemma CanonicalizeIsIdempotent(fl: Floats, text: string)
    requires fl.Sound()
    ensures CanonicalizeJSON(fl, CanonicalizeJSON(fl, text).text) == CanonicalizeJSON(fl, text)
  {
    if CanonicalizeJSON(fl, text).valid {
      ParsedNumbersValid(text);
      DecodedIsCanonical(fl, Parse(text).value);
      DecodePrinted(fl, Decode(fl, text).value, false);
    }
  }

  /** Two texts that canonicalization is meant to identify: equal ones, and those of the same value. */
  ghost predicate TextsAlike(fl: Floats, x: string, y: string) {
    x == y || (Decode(fl, x).Some? && Decode(fl, y).Some? && Same(fl, Parse(x).value, Parse(y).value))
  }

  /** Invalid texts are kept as they are, so for all texts whatsoever: */
  lemma CanonicalAlikeIff(fl: Floats, x: string, y: string)
    requires fl.Sound()
    ensures CanonicalizeJSON(fl, x).text == CanonicalizeJSON(fl, y).text <==> TextsAlike(fl, x, y)
  {
    CanonicalizeIsIdempotent(fl, x);
    CanonicalizeIsIdempotent(fl, y);
    if Decode(fl, x).Some? && Decode(fl, y).Some? { CanonicalIffSame(fl, x, y); }
  }
}
