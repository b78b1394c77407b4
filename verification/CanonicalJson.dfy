/**
 The canonical JSON printer: object members sorted by key, no blanks. Its text
 identifies a value up to the order of object members.
 */
module CanonicalJson {
  import opened Ordering

  /** A parsed JSON value. Floats are kept as the shortest text that denotes them. */
  datatype Json =
    | Null
    | Bool(b: bool)
    | Int(n: int)
    | Float(token: string)
    | Str(s: string)
    | Arr(items: seq<Json>)
    | Obj(members: seq<Member>)

  datatype Member = Member(key: string, value: Json)

  // ----- Well-formed values

  predicate NumberChar(c: char) {
    '0' <= c <= '9' || c == '-' || c == '+' || c == '.' || c == 'e'
  }

  /** The text of a float always has a fraction or an exponent. */
  predicate FloatToken(t: string) {
    (forall c :: c in t ==> NumberChar(c)) && ('.' in t || 'e' in t)
  }

  ghost predicate Valid(v: Json) {
    match v
    case Int(n) => -0x8000_0000_0000_0000 <= n < 0x1_0000_0000_0000_0000
    case Float(token) => FloatToken(token)
    case Arr(items) => forall x :: x in items ==> Valid(x)
    case Obj(ms) =>
      && (forall i, j :: 0 <= i < j < |ms| ==> ms[i].key != ms[j].key)
      && (forall m :: m in ms ==> Valid(m.value))
    case _ => true
  }

  /** Equality up to the order of object members, at every depth. */
  ghost predicate Equivalent(a: Json, b: Json)
    decreases a, 0
  {
    match a
    case Arr(xs) =>
      && b.Arr? && |xs| == |b.items|
      && forall i :: 0 <= i < |xs| ==> Equivalent(xs[i], b.items[i])
    case Obj(ms) =>
      && b.Obj? && |ms| == |b.members|
      && forall m :: m in ms ==> MatchedIn(m, b.members)
    case _ => a == b
  }

  /** Some member of `ns` has the key of `m` and an equivalent value. */
  ghost predicate MatchedIn(m: Member, ns: seq<Member>)
    decreases m.value, 2
  {
    exists n :: n in ns && SameMember(m, n)
  }

  ghost predicate SameMember(m: Member, n: Member)
    decreases m.value, 1
  {
    m.key == n.key && Equivalent(m.value, n.value)
  }

  // ----- The printer

  function Digit(d: nat): char
    requires d < 10
  {
    '0' + d as char
  }

  function Decimal(n: nat): string {
    if n < 10 then [Digit(n)] else Decimal(n / 10) + [Digit(n % 10)]
  }

  function HexDigit(d: nat): char
    requires d < 16
  {
    if d < 10 then '0' + d as char else 'a' + (d - 10) as char
  }

  function EscapeChar(c: char): string {
    if c == '"' then "\\\""
    else if c == '\\' then "\\\\"
    else if c as int == 8 then "\\b"
    else if c as int == 9 then "\\t"
    else if c as int == 10 then "\\n"
    else if c as int == 12 then "\\f"
    else if c as int == 13 then "\\r"
    else if c as int < 32 then "\\u00" + [HexDigit(c as int / 16), HexDigit(c as int % 16)]
    else [c]
  }

  function Escape(s: string): string {
    if s == [] then "" else EscapeChar(s[0]) + Escape(s[1..])
  }

  function Quote(s: string): string {
    "\"" + Escape(s) + "\""
  }

  function Join(texts: seq<string>): string {
    if |texts| == 0 then ""
    else if |texts| == 1 then texts[0]
    else texts[0] + "," + Join(texts[1..])
  }

  predicate MemberLe(a: Member, b: Member) {
    StrLe(a.key, b.key)
  }

  function SortMembers(ms: seq<Member>): (r: seq<Member>)
    ensures multiset(r) == multiset(ms) && |r| == |ms|
    ensures forall m :: m in r <==> m in ms
  {
    var r := Sort(ms, MemberLe);
    MultisetMember(r, ms);
    r
  }

  function Print(v: Json): string
    decreases v, 1, 0
  {
    match v
    case Null => "null"
    case Bool(b) => if b then "true" else "false"
    case Int(n) => if n < 0 then "-" + Decimal(-n) else Decimal(n)
    case Float(token) => token
    case Str(s) => Quote(s)
    case Arr(items) => "[" + (Join(ItemTexts(v, items)) + "]")
    case Obj(members) => "{" + (Join(MemberTexts(v, SortMembers(members))) + "}")
  }

  /** The texts of values nested in `owner`. */
  function ItemTexts(ghost owner: Json, items: seq<Json>): (texts: seq<string>)
    requires forall x :: x in items ==> x < owner
    ensures |texts| == |items|
    decreases owner, 0, |items|
  {
    if items == [] then []
    else
      assert items[0] in items && forall x :: x in items[1..] ==> x in items;
      [Print(items[0])] + ItemTexts(owner, items[1..])
  }

  function MemberTexts(ghost owner: Json, ms: seq<Member>): (texts: seq<string>)
    requires forall m :: m in ms ==> m.value < owner
    ensures |texts| == |ms|
    decreases owner, 0, |ms|
  {
    if ms == [] then []
    else
      assert ms[0] in ms && forall m :: m in ms[1..] ==> m in ms;
      [Quote(ms[0].key) + ":" + Print(ms[0].value)] + MemberTexts(owner, ms[1..])
  }

  // ----- Reading a text back in only one way

  /** What can follow a complete value inside a larger text. */
  ghost predicate Delimited(r: string) {
    r == "" || r[0] == ',' || r[0] == ']' || r[0] == '}'
  }

  lemma TokenReading(x: string, y: string, r: string, s: string)
    requires forall c :: c in x ==> NumberChar(c)
    requires forall c :: c in y ==> NumberChar(c)
    requires Delimited(r) && Delimited(s) && x + r == y + s
    ensures x == y && r == s
  {
    TokenEnd(x, r);
    TokenEnd(y, s);
    assert |x| == |y|;
    assert x == (x + r)[..|x|] && y == (y + s)[..|y|];
    assert r == (x + r)[|x|..] && s == (y + s)[|y|..];
  }

  /** A number ends at the first character that cannot belong to it. */
  lemma TokenEnd(x: string, r: string)
    requires forall c :: c in x ==> NumberChar(c)
    requires Delimited(r)
    ensures forall i :: 0 <= i < |x| ==> NumberChar((x + r)[i])
    ensures |x + r| > |x| ==> !NumberChar((x + r)[|x|])
  {
    forall i | 0 <= i < |x| ensures NumberChar((x + r)[i]) {
      assert (x + r)[i] == x[i] && x[i] in x;
    }
  }

  lemma {:induction false} DecimalChars(n: nat)
    ensures Decimal(n) != "" && forall c :: c in Decimal(n) ==> '0' <= c <= '9'
  {
    if n >= 10 {
      DecimalChars(n / 10);
    }
  }

  lemma {:induction false} DecimalInjective(m: nat, n: nat)
    requires Decimal(m) == Decimal(n)
    ensures m == n
  {
    DecimalChars(m / 10);
    DecimalChars(n / 10);
    var x, y := Decimal(m), Decimal(n);
    assert x[|x| - 1] == Digit(m % 10) && y[|y| - 1] == Digit(n % 10);
    if m >= 10 && n >= 10 {
      assert Decimal(m / 10) == x[..|x| - 1] == Decimal(n / 10);
      DecimalInjective(m / 10, n / 10);
    }
  }

  lemma EscapeStart(s: string, r: string)
    ensures (Escape(s) + "\"" + r)[0] == '"' <==> s == []
  {
    if s != [] {
      EscapeSplit(s, r);
    }
  }

  lemma EscapeSplit(s: string, r: string)
    requires s != []
    ensures Escape(s) + "\"" + r == EscapeChar(s[0]) + (Escape(s[1..]) + "\"" + r)
    ensures (Escape(s) + "\"" + r)[0] == EscapeChar(s[0])[0] != '"'
  {
  }

  lemma {:induction false} EscapeReading(s: string, t: string, r: string, q: string)
    requires Escape(s) + "\"" + r == Escape(t) + "\"" + q
    ensures s == t && r == q
  {
    if s == [] && t == [] {
      assert r == (Escape(s) + "\"" + r)[1..] && q == (Escape(t) + "\"" + q)[1..];
    } else if s == [] || t == [] {
      EscapeStart(s, r);
      EscapeStart(t, q);
      assert false;
    } else {
      var x', y' := Escape(s[1..]) + "\"" + r, Escape(t[1..]) + "\"" + q;
      EscapeSplit(s, r);
      EscapeSplit(t, q);
      EscapeCharReading(s[0], t[0], x', y');
      EscapeReading(s[1..], t[1..], r, q);
      assert s == [s[0]] + s[1..] && t == [t[0]] + t[1..];
    }
  }

  lemma EscapeCharReading(c: char, d: char, r: string, q: string)
    requires EscapeChar(c) + r == EscapeChar(d) + q
    ensures c == d && r == q
  {
    var x, y := EscapeChar(c) + r, EscapeChar(d) + q;
    assert x[0] == EscapeChar(c)[0] && y[0] == EscapeChar(d)[0];
    if x[0] == '\\' {
      assert x[1] == EscapeChar(c)[1] && y[1] == EscapeChar(d)[1];
      if x[1] == 'u' {
        assert x[4] == EscapeChar(c)[4] && y[4] == EscapeChar(d)[4];
        assert x[5] == EscapeChar(c)[5] && y[5] == EscapeChar(d)[5];
        HexPair(c as int, d as int);
      }
    }
    assert c == d;
    assert r == x[|EscapeChar(c)|..] && q == y[|EscapeChar(d)|..];
  }

  lemma HexPair(m: nat, n: nat)
    requires m < 256 && n < 256
    requires HexDigit(m / 16) == HexDigit(n / 16) && HexDigit(m % 16) == HexDigit(n % 16)
    ensures m == n
  {
    HexDigitInjective(m / 16, n / 16);
    HexDigitInjective(m % 16, n % 16);
  }

  lemma HexDigitInjective(m: nat, n: nat)
    requires m < 16 && n < 16 && HexDigit(m) == HexDigit(n)
    ensures m == n
  {
  }

  /** The kind of a value shows in the first character of its text. */
  ghost function Kind(c: char): int {
    if c == 'n' then 0 else if c == 't' || c == 'f' then 1
    else if NumberChar(c) then 2 else if c == '"' then 3
    else if c == '[' then 4 else if c == '{' then 5 else 6
  }

  lemma FirstChar(v: Json)
    requires Valid(v)
    ensures Print(v) != ""
    ensures Kind(Print(v)[0]) == match v
      case Null => 0 case Bool(_) => 1 case Int(_) => 2 case Float(_) => 2
      case Str(_) => 3 case Arr(_) => 4 case Obj(_) => 5
  {
    match v
    case Int(n) =>
      DecimalChars(if n < 0 then -n else n);
      assert Print(v)[0] == '-' || Print(v)[0] in Decimal(n);
    case Float(t) => assert t[0] in t;
    case _ =>
  }

  lemma NumberReading(a: Json, b: Json, r: string, s: string)
    requires Valid(a) && Valid(b) && Delimited(r) && Delimited(s)
    requires (a.Int? || a.Float?) && (b.Int? || b.Float?) && Print(a) + r == Print(b) + s
    ensures a == b && r == s
  {
    NumberChars(a);
    NumberChars(b);
    TokenReading(Print(a), Print(b), r, s);
    if a.Int? && b.Int? {
      var x, y := Print(a), Print(b);
      IntSign(a.n);
      IntSign(b.n);
      if a.n < 0 {
        assert Decimal(-a.n) == x[1..] && Decimal(-b.n) == y[1..];
        DecimalInjective(-a.n, -b.n);
      } else {
        DecimalInjective(a.n, b.n);
      }
    }
  }

  lemma IntSign(n: int)
    ensures Print(Int(n)) != "" && (n < 0 <==> Print(Int(n))[0] == '-')
  {
    var m := if n < 0 then -n else n;
    DecimalChars(m);
    assert Decimal(m)[0] in Decimal(m);
  }

  lemma NumberChars(v: Json)
    requires Valid(v) && (v.Int? || v.Float?)
    ensures forall c :: c in Print(v) ==> NumberChar(c)
    ensures v.Float? <==> '.' in Print(v) || 'e' in Print(v)
  {
    if v.Int? {
      DecimalChars(if v.n < 0 then -v.n else v.n);
    }
  }

  // ----- Lists of texts

  /** What follows the first text of a nonempty joined list. */
  function AfterFirst(texts: seq<string>, rest: string): string
    requires texts != []
  {
    (if |texts| == 1 then "" else "," + Join(texts[1..])) + rest
  }

  lemma Assoc(a: string, b: string, c: string)
    ensures (a + b) + c == a + (b + c)
  {
  }

  /** Removes the opening bracket from a bracketed text. */
  lemma Peel(open: string, inner: string, close: string, r: string)
    requires |open| == 1
    ensures (open + (inner + close) + r)[1..] == inner + (close + r)
  {
    Assoc(open, inner + close, r);
    Assoc(inner, close, r);
    assert (open + (inner + close + r))[1..] == inner + close + r;
  }

  lemma JoinSplit(texts: seq<string>, rest: string)
    requires texts != [] && rest != "" && (rest[0] == ']' || rest[0] == '}')
    ensures Join(texts) + rest == texts[0] + AfterFirst(texts, rest)
    ensures Delimited(AfterFirst(texts, rest))
    ensures AfterFirst(texts, rest)[0] == ',' <==> |texts| > 1
    ensures |texts| > 1 ==> AfterFirst(texts, rest)[1..] == Join(texts[1..]) + rest
    ensures |texts| == 1 ==> AfterFirst(texts, rest) == rest
  {
    if |texts| == 1 {
      assert "" + rest == rest;
    } else {
      var j := Join(texts[1..]);
      Assoc(texts[0], ",", j);
      Assoc(texts[0], "," + j, rest);
      Assoc(",", j, rest);
      assert AfterFirst(texts, rest) == "," + (j + rest);
      assert ("," + (j + rest))[1..] == j + rest;
    }
  }

  lemma ItemsStart(owner: Json, xs: seq<Json>, rest: string)
    requires (forall x :: x in xs ==> x < owner) && (forall x :: x in xs ==> Valid(x))
    requires rest != "" && rest[0] == ']'
    ensures (Join(ItemTexts(owner, xs)) + rest)[0] == ']' <==> xs == []
  {
    if xs != [] {
      assert xs[0] in xs;
      FirstChar(xs[0]);
      JoinSplit(ItemTexts(owner, xs), rest);
    }
  }

  lemma MembersStart(owner: Json, ms: seq<Member>, rest: string)
    requires forall m :: m in ms ==> m.value < owner
    requires rest != "" && rest[0] == '}'
    ensures (Join(MemberTexts(owner, ms)) + rest)[0] == '}' <==> ms == []
  {
    if ms != [] {
      JoinSplit(MemberTexts(owner, ms), rest);
    }
  }

  // ----- Unique reading

  /** Equal texts, each followed by a delimiter, were printed from equivalent values. */
  lemma {:induction false} Reading(a: Json, b: Json, r: string, s: string)
    requires Valid(a) && Valid(b) && Delimited(r) && Delimited(s)
    requires Print(a) + r == Print(b) + s
    ensures Equivalent(a, b) && r == s
    decreases a, 1, 0
  {
    FirstChar(a);
    FirstChar(b);
    assert (Print(a) + r)[0] == Print(a)[0] && (Print(b) + s)[0] == Print(b)[0];
    match a
    case Null => assert r == (Print(a) + r)[4..];
    case Bool(_) =>
      assert (Print(a) + r)[1] == Print(a)[1] && (Print(b) + s)[1] == Print(b)[1];
      assert r == (Print(a) + r)[|Print(a)|..] && s == (Print(b) + s)[|Print(b)|..];
    case Int(_) => NumberReading(a, b, r, s);
    case Float(_) => NumberReading(a, b, r, s);
    case Str(x) => QuoteReading(x, b.s, r, s);
    case Arr(xs) =>
      Bracketed(a, b, r, s);
      ItemsReading(a, xs, b, b.items, r, s);
    case Obj(ms) =>
      Bracketed(a, b, r, s);
      var ms', ns' := SortMembers(ms), SortMembers(b.members);
      MembersReading(a, ms', b, ns', r, s);
      ObjectsMatch(ms, ms', b.members, ns');
  }

  lemma QuoteReading(x: string, y: string, r: string, s: string)
    requires Quote(x) + r == Quote(y) + s
    ensures x == y && r == s
  {
    assert (Quote(x) + r)[1..] == Escape(x) + "\"" + r;
    assert (Quote(y) + s)[1..] == Escape(y) + "\"" + s;
    EscapeReading(x, y, r, s);
  }

  /** Strips the opening bracket of two arrays or two objects. */
  lemma Bracketed(a: Json, b: Json, r: string, s: string)
    requires (a.Arr? && b.Arr?) || (a.Obj? && b.Obj?)
    requires Print(a) + r == Print(b) + s
    ensures a.Arr? ==> Join(ItemTexts(a, a.items)) + ("]" + r) == Join(ItemTexts(b, b.items)) + ("]" + s)
    ensures a.Obj? ==> Join(MemberTexts(a, SortMembers(a.members))) + ("}" + r)
                       == Join(MemberTexts(b, SortMembers(b.members))) + ("}" + s)
  {
    if a.Arr? {
      Peel("[", Join(ItemTexts(a, a.items)), "]", r);
      Peel("[", Join(ItemTexts(b, b.items)), "]", s);
    } else {
      Peel("{", Join(MemberTexts(a, SortMembers(a.members))), "}", r);
      Peel("{", Join(MemberTexts(b, SortMembers(b.members))), "}", s);
    }
  }

  lemma {:induction false} ItemsReading(oa: Json, xs: seq<Json>, ob: Json, ys: seq<Json>, r: string, s: string)
    requires (forall x :: x in xs ==> x < oa) && (forall x :: x in xs ==> Valid(x))
    requires (forall y :: y in ys ==> y < ob) && (forall y :: y in ys ==> Valid(y))
    requires Join(ItemTexts(oa, xs)) + ("]" + r) == Join(ItemTexts(ob, ys)) + ("]" + s)
    ensures |xs| == |ys| && r == s
    ensures forall i :: 0 <= i < |xs| ==> Equivalent(xs[i], ys[i])
    decreases oa, 0, |xs|
  {
    var rx, ry := "]" + r, "]" + s;
    ItemsStart(oa, xs, rx);
    ItemsStart(ob, ys, ry);
    if xs == [] {
      assert "" + rx == rx && "" + ry == ry;
      assert r == rx[1..] && s == ry[1..];
    } else {
      var tx, ty := ItemTexts(oa, xs), ItemTexts(ob, ys);
      JoinSplit(tx, rx);
      JoinSplit(ty, ry);
      TailIn(xs);
      TailIn(ys);
      Reading(xs[0], ys[0], AfterFirst(tx, rx), AfterFirst(ty, ry));
      if |xs| == 1 {
        assert r == rx[1..] && s == ry[1..];
      } else {
        assert tx[1..] == ItemTexts(oa, xs[1..]) && ty[1..] == ItemTexts(ob, ys[1..]);
        ItemsReading(oa, xs[1..], ob, ys[1..], r, s);
      }
    }
  }

  lemma {:induction false} MembersReading(oa: Json, ms: seq<Member>, ob: Json, ns: seq<Member>, r: string, s: string)
    requires (forall m :: m in ms ==> m.value < oa) && (forall m :: m in ms ==> Valid(m.value))
    requires (forall n :: n in ns ==> n.value < ob) && (forall n :: n in ns ==> Valid(n.value))
    requires Join(MemberTexts(oa, ms)) + ("}" + r) == Join(MemberTexts(ob, ns)) + ("}" + s)
    ensures |ms| == |ns| && r == s
    ensures forall i :: 0 <= i < |ms| ==> SameMember(ms[i], ns[i])
    decreases oa, 0, |ms|
  {
    var rx, ry := "}" + r, "}" + s;
    MembersStart(oa, ms, rx);
    MembersStart(ob, ns, ry);
    if ms == [] {
      assert "" + rx == rx && "" + ry == ry;
      assert r == rx[1..] && s == ry[1..];
    } else {
      var tx, ty := MemberTexts(oa, ms), MemberTexts(ob, ns);
      JoinSplit(tx, rx);
      JoinSplit(ty, ry);
      TailIn(ms);
      TailIn(ns);
      KeyReading(ms[0], ns[0], AfterFirst(tx, rx), AfterFirst(ty, ry));
      Reading(ms[0].value, ns[0].value, AfterFirst(tx, rx), AfterFirst(ty, ry));
      if |ms| == 1 {
        assert r == rx[1..] && s == ry[1..];
      } else {
        assert tx[1..] == MemberTexts(oa, ms[1..]) && ty[1..] == MemberTexts(ob, ns[1..]);
        MembersReading(oa, ms[1..], ob, ns[1..], r, s);
      }
    }
  }

  lemma KeyReading(m: Member, n: Member, r: string, s: string)
    requires Quote(m.key) + ":" + Print(m.value) + r == Quote(n.key) + ":" + Print(n.value) + s
    ensures m.key == n.key && Print(m.value) + r == Print(n.value) + s
  {
    KeySplit(m, r);
    KeySplit(n, s);
    QuoteReading(m.key, n.key, ":" + (Print(m.value) + r), ":" + (Print(n.value) + s));
    assert (":" + (Print(m.value) + r))[1..] == Print(m.value) + r;
    assert (":" + (Print(n.value) + s))[1..] == Print(n.value) + s;
  }

  lemma KeySplit(m: Member, r: string)
    ensures Quote(m.key) + ":" + Print(m.value) + r == Quote(m.key) + (":" + (Print(m.value) + r))
  {
    var q, p := Quote(m.key), Print(m.value);
    Assoc(q + ":", p, r);
    Assoc(q, ":", p + r);
  }

  lemma ObjectsMatch(ms: seq<Member>, ms': seq<Member>, ns: seq<Member>, ns': seq<Member>)
    requires |ms| == |ms'| && |ns| == |ns'| && |ms'| == |ns'|
    requires (forall m :: m in ms' <==> m in ms) && (forall n :: n in ns' <==> n in ns)
    requires forall i :: 0 <= i < |ms'| ==> SameMember(ms'[i], ns'[i])
    ensures Equivalent(Obj(ms), Obj(ns))
  {
    forall m | m in ms ensures MatchedIn(m, ns) {
      assert m in ms';
      var i :| 0 <= i < |ms'| && ms'[i] == m;
      assert ns'[i] in ns' && SameMember(ms'[i], ns'[i]);
    }
  }

  // ----- Equivalent values print alike

  function Keys(ms: seq<Member>): (ks: seq<string>)
    ensures |ks| == |ms| && forall i :: 0 <= i < |ms| ==> ks[i] == ms[i].key
  {
    if ms == [] then [] else [ms[0].key] + Keys(ms[1..])
  }

  lemma KeysCons(m: Member, ms: seq<Member>)
    ensures Keys([m] + ms) == [m.key] + Keys(ms)
  {
    assert ([m] + ms)[1..] == ms;
  }

  lemma {:induction false} KeysInsert(m: Member, ms: seq<Member>)
    ensures Keys(Insert(m, ms, MemberLe)) == Insert(m.key, Keys(ms), StrLe)
  {
    if ms == [] {
      KeysCons(m, []);
    } else {
      assert Keys(ms)[0] == ms[0].key && Keys(ms)[1..] == Keys(ms[1..]);
      if MemberLe(m, ms[0]) {
        KeysCons(m, ms);
      } else {
        KeysInsert(m, ms[1..]);
        KeysCons(ms[0], Insert(m, ms[1..], MemberLe));
      }
    }
  }

  lemma {:induction false} KeysSort(ms: seq<Member>)
    ensures Keys(Sort(ms, MemberLe)) == Sort(Keys(ms), StrLe)
  {
    if ms != [] {
      KeysSort(ms[1..]);
      assert Keys(ms)[1..] == Keys(ms[1..]);
      KeysInsert(ms[0], Sort(ms[1..], MemberLe));
    }
  }

  /** The sorted keys of two objects with the same distinct keys agree place by place. */
  lemma SortedKeysAgree(ms: seq<Member>, ns: seq<Member>)
    requires Distinct(Keys(ms)) && Distinct(Keys(ns)) && |ms| == |ns|
    requires forall k :: k in Keys(ms) ==> k in Keys(ns)
    ensures Keys(SortMembers(ms)) == Keys(SortMembers(ns))
  {
    DistinctSubset(Keys(ms), Keys(ns));
    KeysSort(ms);
    KeysSort(ns);
    SortStringsCanonical(Keys(ms), Keys(ns));
  }

  lemma {:induction false} EquivalentPrint(a: Json, b: Json)
    requires Valid(a) && Valid(b) && Equivalent(a, b)
    ensures Print(a) == Print(b)
    decreases a, 1, 0
  {
    match a
    case Arr(xs) => ItemTextsEqual(a, xs, b, b.items);
    case Obj(ms) =>
      var ms', ns' := SortMembers(ms), SortMembers(b.members);
      ObjectKeys(ms, b.members);
      SortedKeysAgree(ms, b.members);
      AlignedMembers(ms, ms', b.members, ns');
      MemberTextsEqual(a, ms', b, ns');
    case _ =>
  }

  lemma DistinctKeys(ms: seq<Member>)
    requires Valid(Obj(ms))
    ensures Distinct(Keys(ms))
  {
    forall i, j | 0 <= i < j < |ms| ensures Keys(ms)[i] != Keys(ms)[j] {
      assert ms[i].key != ms[j].key;
    }
  }

  lemma ObjectKeys(ms: seq<Member>, ns: seq<Member>)
    requires Valid(Obj(ms)) && Valid(Obj(ns)) && Equivalent(Obj(ms), Obj(ns))
    ensures Distinct(Keys(ms)) && Distinct(Keys(ns)) && |ms| == |ns|
    ensures forall k :: k in Keys(ms) ==> k in Keys(ns)
  {
    DistinctKeys(ms);
    DistinctKeys(ns);
    forall k | k in Keys(ms) ensures k in Keys(ns) {
      var i :| 0 <= i < |ms| && Keys(ms)[i] == k;
      assert ms[i] in ms && MatchedIn(ms[i], ns);
      KeyMatched(ms[i], ns);
    }
  }

  lemma KeyMatched(m: Member, ns: seq<Member>)
    requires MatchedIn(m, ns)
    ensures m.key in Keys(ns)
  {
    var n :| n in ns && SameMember(m, n);
    var j :| 0 <= j < |ns| && ns[j] == n;
    assert Keys(ns)[j] == m.key;
  }

  lemma AlignedMembers(ms: seq<Member>, ms': seq<Member>, ns: seq<Member>, ns': seq<Member>)
    requires Valid(Obj(ns)) && Equivalent(Obj(ms), Obj(ns))
    requires (forall m :: m in ms' <==> m in ms) && ns' == SortMembers(ns)
    requires Keys(ms') == Keys(ns')
    ensures |ms'| == |ns'| && forall i :: 0 <= i < |ms'| ==> SameMember(ms'[i], ns'[i])
  {
    assert |Keys(ms')| == |ms'| && |Keys(ns')| == |ns'|;
    forall i | 0 <= i < |ms'| ensures SameMember(ms'[i], ns'[i]) {
      var m := ms'[i];
      assert m in ms' && m in ms;
      assert MatchedIn(m, ns);
      var n :| n in ns && SameMember(m, n);
      assert Keys(ms')[i] == m.key && Keys(ns')[i] == ns'[i].key;
      assert ns'[i] in ns' && ns'[i] in ns;
      UniqueKey(ns, n, ns'[i]);
    }
  }

  lemma UniqueKey(ns: seq<Member>, m: Member, n: Member)
    requires Valid(Obj(ns)) && m in ns && n in ns && m.key == n.key
    ensures m == n
  {
    var i :| 0 <= i < |ns| && ns[i] == m;
    var j :| 0 <= j < |ns| && ns[j] == n;
    assert i == j;
  }

  lemma {:induction false} ItemTextsEqual(oa: Json, xs: seq<Json>, ob: Json, ys: seq<Json>)
    requires (forall x :: x in xs ==> x < oa) && (forall x :: x in xs ==> Valid(x))
    requires (forall y :: y in ys ==> y < ob) && (forall y :: y in ys ==> Valid(y))
    requires |xs| == |ys| && forall i :: 0 <= i < |xs| ==> Equivalent(xs[i], ys[i])
    ensures ItemTexts(oa, xs) == ItemTexts(ob, ys)
    decreases oa, 0, |xs|
  {
    if xs != [] {
      TailIn(xs);
      TailIn(ys);
      EquivalentPrint(xs[0], ys[0]);
      ItemTextsEqual(oa, xs[1..], ob, ys[1..]);
    }
  }

  lemma {:induction false} MemberTextsEqual(oa: Json, ms: seq<Member>, ob: Json, ns: seq<Member>)
    requires (forall m :: m in ms ==> m.value < oa) && (forall m :: m in ms ==> Valid(m.value))
    requires (forall n :: n in ns ==> n.value < ob) && (forall n :: n in ns ==> Valid(n.value))
    requires |ms| == |ns| && forall i :: 0 <= i < |ms| ==> SameMember(ms[i], ns[i])
    ensures MemberTexts(oa, ms) == MemberTexts(ob, ns)
    decreases oa, 0, |ms|
  {
    if ms != [] {
      TailIn(ms);
      TailIn(ns);
      EquivalentPrint(ms[0].value, ns[0].value);
      MemberTextsEqual(oa, ms[1..], ob, ns[1..]);
    }
  }

  /** The printed text identifies a value exactly up to member order. */
  lemma Unambiguous(a: Json, b: Json)
    requires Valid(a) && Valid(b)
    ensures Print(a) == Print(b) <==> Equivalent(a, b)
  {
    if Print(a) == Print(b) {
      assert Print(a) + "" == Print(b) + "";
      Reading(a, b, "", "");
    }
    if Equivalent(a, b) {
      EquivalentPrint(a, b);
    }
  }

  /** An object given by its keys and values. */
  function Zip(keys: seq<string>, values: seq<Json>): (ms: seq<Member>)
    requires |keys| == |values|
    ensures |ms| == |keys| && forall i :: 0 <= i < |keys| ==> ms[i] == Member(keys[i], values[i])
  {
    seq(|keys|, i requires 0 <= i < |keys| => Member(keys[i], values[i]))
  }

  lemma ZipValid(keys: seq<string>, values: seq<Json>)
    requires |keys| == |values| && Distinct(keys) && forall i :: 0 <= i < |values| ==> Valid(values[i])
    ensures Valid(Obj(Zip(keys, values)))
  {
    var ms := Zip(keys, values);
    forall m | m in ms ensures Valid(m.value) {
      var i :| 0 <= i < |ms| && ms[i] == m;
    }
    forall i, j | 0 <= i < j < |ms| ensures ms[i].key != ms[j].key {
      assert keys[i] != keys[j];
    }
  }

  /** Objects with the same keys print alike exactly when their values do, place by place. */
  lemma SamePlaces(keys: seq<string>, xs: seq<Json>, ys: seq<Json>)
    requires |keys| == |xs| == |ys| && Distinct(keys)
    requires forall i :: 0 <= i < |xs| ==> Valid(xs[i]) && Valid(ys[i])
    ensures Print(Obj(Zip(keys, xs))) == Print(Obj(Zip(keys, ys))) <==>
            forall i :: 0 <= i < |xs| ==> Equivalent(xs[i], ys[i])
  {
    var ms, ns := Zip(keys, xs), Zip(keys, ys);
    ZipValid(keys, xs);
    ZipValid(keys, ys);
    Unambiguous(Obj(ms), Obj(ns));
    if Equivalent(Obj(ms), Obj(ns)) {
      forall i | 0 <= i < |xs| ensures Equivalent(xs[i], ys[i]) {
        assert ms[i] in ms && ns[i] in ns && MatchedIn(ms[i], ns);
        var n :| n in ns && SameMember(ms[i], n);
        UniqueKey(ns, n, ns[i]);
      }
    }
    if forall i :: 0 <= i < |xs| ==> Equivalent(xs[i], ys[i]) {
      forall i | 0 <= i < |ms| ensures SameMember(ms[i], ns[i]) {
        assert Equivalent(xs[i], ys[i]);
      }
      ObjectsMatch(ms, ms, ns, ns);
    }
  }
}
