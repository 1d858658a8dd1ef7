/** The JSON that crosses the exec channel: strings, arrays and objects, written
    as `json.dumps` writes them (ASCII only) and read as `json.loads` reads them.
    Strings follow section 7 of RFC 8259. */
module Json {
  import opened Common

  datatype Value = JStr(s: Str) | JArr(items: seq<Value>) | JObj(fields: seq<Field>)
  datatype Field = Field(key: Str, val: Value)

  const QUOTE: Code := 34
  const BACKSLASH: Code := 92
  const COMMA: Code := 44
  const COLON: Code := 58
  const SPACE: Code := 32
  const LBRACKET: Code := 91
  const RBRACKET: Code := 93
  const LBRACE: Code := 123
  const RBRACE: Code := 125
  const LOWER_U: Code := 117

  predicate High(c: int) { 0xd800 <= c < 0xdc00 }
  predicate Low(c: int) { 0xdc00 <= c < 0xe000 }

  /** The code point a surrogate pair stands for. */
  function Join(high: int, low: int): Code
    requires High(high) && Low(low)
  {
    0x1_0000 + (high - 0xd800) * 0x400 + (low - 0xdc00)
  }

  function HighOf(c: Code): (h: int)
    requires c >= 0x1_0000
    ensures High(h)
  {
    0xd800 + (c - 0x1_0000) / 0x400
  }

  function LowOf(c: Code): (l: int)
    requires c >= 0x1_0000
    ensures Low(l)
  {
    0xdc00 + (c - 0x1_0000) % 0x400
  }

  // ---- writing --------------------------------------------------------------

  function Hex(n: int): Code
    requires 0 <= n < 16
  {
    if n < 10 then 48 + n else 87 + n
  }

  /** `\uXXXX` for a UTF-16 code unit. */
  function Unit(n: int): Str
    requires 0 <= n < 0x1_0000
  {
    [BACKSLASH, LOWER_U, Hex(n / 4096), Hex(n / 256 % 16), Hex(n / 16 % 16), Hex(n % 16)]
  }

  // The letter of a two-character escape.
  function Short(c: Code): Option<Code> {
    if c == QUOTE then Some(QUOTE)
    else if c == BACKSLASH then Some(BACKSLASH)
    else if c == 10 then Some(110)
    else if c == 13 then Some(114)
    else if c == 9 then Some(116)
    else if c == 12 then Some(102)
    else if c == 8 then Some(98)
    else None
  }

  function Escape(c: Code): Str {
    if Short(c).Some? then [BACKSLASH, Short(c).value]
    else if 32 <= c <= 126 then [c]
    else if c < 0x1_0000 then Unit(c)
    else Unit(HighOf(c)) + Unit(LowOf(c))
  }

  function Body(s: Str): Str { if s == [] then [] else Escape(s[0]) + Body(s[1..]) }

  function Quoted(s: Str): Str { [QUOTE] + Body(s) + [QUOTE] }

  function Dumps(v: Value): Str
    decreases v, 0
  {
    match v
    case JStr(s) => Quoted(s)
    case JArr(items) => [LBRACKET] + DumpItems(items) + [RBRACKET]
    case JObj(fields) => [LBRACE] + DumpFields(fields) + [RBRACE]
  }

  function DumpItems(items: seq<Value>): Str
    decreases items, 0
  {
    if items == [] then []
    else Dumps(items[0]) + if |items| == 1 then [] else [COMMA, SPACE] + DumpItems(items[1..])
  }

  function DumpFields(fields: seq<Field>): Str
    decreases fields, 0
  {
    if fields == [] then []
    else
      Quoted(fields[0].key) + [COLON, SPACE] + Dumps(fields[0].val)
      + if |fields| == 1 then [] else [COMMA, SPACE] + DumpFields(fields[1..])
  }

  // ---- reading --------------------------------------------------------------

  function HexValue(c: Code): (r: Option<int>)
    ensures r.Some? ==> 0 <= r.value < 16
  {
    if 48 <= c <= 57 then Some(c - 48)
    else if 97 <= c <= 102 then Some(c - 87)
    else if 65 <= c <= 70 then Some(c - 55)
    else None
  }

  /** The code unit of an escape `\uXXXX` at the start of `t`. */
  function ReadUnit(t: Str): (r: Option<int>)
    ensures r.Some? ==> 0 <= r.value < 0x1_0000 && |t| >= 6
  {
    if |t| < 6 || t[0] != BACKSLASH || t[1] != LOWER_U then None
    else
      match (HexValue(t[2]), HexValue(t[3]), HexValue(t[4]), HexValue(t[5]))
      case (Some(a), Some(b), Some(c), Some(d)) => Some(FourDigits(a, b, c, d))
      case _ => None
  }

  function FourDigits(a: int, b: int, c: int, d: int): (n: int)
    requires 0 <= a < 16 && 0 <= b < 16 && 0 <= c < 16 && 0 <= d < 16
    ensures 0 <= n < 0x1_0000
  {
    a * 4096 + b * 256 + c * 16 + d
  }

  function Unshort(c: Code): Option<Code> {
    if c == QUOTE || c == BACKSLASH || c == 47 then Some(c)
    else if c == 110 then Some(10)
    else if c == 114 then Some(13)
    else if c == 116 then Some(9)
    else if c == 102 then Some(12)
    else if c == 98 then Some(8)
    else None
  }

  /** Read string characters up to the closing quote; a high surrogate escape
      that a low one follows is joined with it. */
  function ReadBody(t: Str): (r: Option<(Str, Str)>)
    ensures r.Some? ==> |r.value.1| < |t|
  {
    if t == [] then None
    else if t[0] == QUOTE then Some(([], t[1..]))
    else if t[0] == BACKSLASH then
      if |t| >= 2 && Unshort(t[1]).Some? then Cons(Unshort(t[1]).value, ReadBody(t[2..]))
      else
        match ReadUnit(t)
        case None => None
        case Some(u) =>
          var next := ReadUnit(t[6..]);
          if High(u) && next.Some? && Low(next.value) then Cons(Join(u, next.value), ReadBody(t[12..]))
          else Cons(u, ReadBody(t[6..]))
    else if t[0] < 32 then None
    else Cons(t[0], ReadBody(t[1..]))
  }

  function Cons(c: Code, r: Option<(Str, Str)>): Option<(Str, Str)> {
    if r.None? then None else Some(([c] + r.value.0, r.value.1))
  }

  function SkipSpace(t: Str): (r: Str)
    ensures |r| <= |t|
  {
    if t != [] && (t[0] == SPACE || t[0] == 9 || t[0] == 10 || t[0] == 13) then SkipSpace(t[1..]) else t
  }

  function ReadValue(t: Str): (r: Option<(Value, Str)>)
    ensures r.Some? ==> |r.value.1| < |t|
    decreases |t|, 0
  {
    if t == [] then None
    else if t[0] == QUOTE then
      match ReadBody(t[1..])
      case None => None
      case Some((s, rest)) => Some((JStr(s), rest))
    else if t[0] == LBRACKET then
      var t1 := SkipSpace(t[1..]);
      if t1 != [] && t1[0] == RBRACKET then Some((JArr([]), t1[1..]))
      else
        match ReadItems(t1)
        case None => None
        case Some((items, rest)) => Some((JArr(items), rest))
    else if t[0] == LBRACE then
      var t1 := SkipSpace(t[1..]);
      if t1 != [] && t1[0] == RBRACE then Some((JObj([]), t1[1..]))
      else
        match ReadFields(t1)
        case None => None
        case Some((fields, rest)) => Some((JObj(fields), rest))
    else None
  }

  function ReadItems(t: Str): (r: Option<(seq<Value>, Str)>)
    ensures r.Some? ==> |r.value.1| < |t|
    decreases |t|, 1
  {
    match ReadValue(t)
    case None => None
    case Some((v, rest)) =>
      var t1 := SkipSpace(rest);
      if t1 == [] then None
      else if t1[0] == RBRACKET then Some(([v], t1[1..]))
      else if t1[0] == COMMA then
        match ReadItems(SkipSpace(t1[1..]))
        case None => None
        case Some((more, end)) => Some(([v] + more, end))
      else None
  }

  function ReadFields(t: Str): (r: Option<(seq<Field>, Str)>)
    ensures r.Some? ==> |r.value.1| < |t|
    decreases |t|, 1
  {
    if t == [] || t[0] != QUOTE then None
    else
      match ReadBody(t[1..])
      case None => None
      case Some((key, rest)) =>
        var t1 := SkipSpace(rest);
        if t1 == [] || t1[0] != COLON then None
        else
          match ReadValue(SkipSpace(t1[1..]))
          case None => None
          case Some((v, rest2)) =>
            var t2 := SkipSpace(rest2);
            if t2 == [] then None
            else if t2[0] == RBRACE then Some(([Field(key, v)], t2[1..]))
            else if t2[0] == COMMA then
              match ReadFields(SkipSpace(t2[1..]))
              case None => None
              case Some((more, end)) => Some(([Field(key, v)] + more, end))
            else None
  }

  /** `json.loads`; None stands for its ValueError, and for the numbers and
      constants that are never sent. */
  function Loads(t: Str): Option<Value> {
    match ReadValue(SkipSpace(t))
    case None => None
    case Some((v, rest)) => if SkipSpace(rest) == [] then Some(v) else None
  }

  // ---- strings --------------------------------------------------------------

  /** No high surrogate is directly followed by a low one. */
  predicate NoPair(s: Str) { forall i | 0 <= i < |s| - 1 :: !(High(s[i]) && Low(s[i + 1])) }

  predicate PairAhead(s: Str) { |s| >= 2 && High(s[0]) && Low(s[1]) }

  /** The string with every adjacent surrogate pair joined. */
  function Collapse(s: Str): Str {
    if PairAhead(s) then [Join(s[0], s[1])] + Collapse(s[2..])
    else if s == [] then []
    else [s[0]] + Collapse(s[1..])
  }

  lemma HexReads(n: int)
    requires 0 <= n < 16
    ensures HexValue(Hex(n)) == Some(n)
  {}

  lemma UnitDigits(n: int)
    requires 0 <= n < 0x1_0000
    ensures FourDigits(n / 4096, n / 256 % 16, n / 16 % 16, n % 16) == n
  {
    assert n / 256 == n / 4096 * 16 + n / 256 % 16;
    assert n / 16 == n / 256 * 16 + n / 16 % 16;
  }

  lemma DigitsRead(a: int, b: int, c: int, d: int, tail: Str)
    requires 0 <= a < 16 && 0 <= b < 16 && 0 <= c < 16 && 0 <= d < 16
    ensures ReadUnit([BACKSLASH, LOWER_U, Hex(a), Hex(b), Hex(c), Hex(d)] + tail) == Some(FourDigits(a, b, c, d))
  {
    HexReads(a);
    HexReads(b);
    HexReads(c);
    HexReads(d);
  }

  lemma UnitReads(n: int, tail: Str)
    requires 0 <= n < 0x1_0000
    ensures ReadUnit(Unit(n) + tail) == Some(n)
  {
    DigitsRead(n / 4096, n / 256 % 16, n / 16 % 16, n % 16, tail);
    UnitDigits(n);
  }

  predicate Plain(c: Code) { Short(c).Some? || 32 <= c <= 126 }

  lemma ShortReads(c: Code, more: Str)
    requires Short(c).Some?
    ensures ReadBody(Escape(c) + more) == Cons(c, ReadBody(more)) && ReadUnit(Escape(c) + more).None?
  {
    var t := Escape(c) + more;
    assert t[0] == BACKSLASH && t[1] == Short(c).value && t[2..] == more;
  }

  lemma PlainReads(c: Code, more: Str)
    requires Plain(c)
    ensures ReadBody(Escape(c) + more) == Cons(c, ReadBody(more))
    ensures ReadUnit(Escape(c) + more).None?
  {
    if Short(c).Some? {
      ShortReads(c, more);
    } else {
      assert Escape(c) == [c];
      assert ([c] + more)[1..] == more;
    }
  }

  // One step of reading at an escape `\uXXXX`.
  lemma UnitStep(u: int, more: Str)
    requires 0 <= u < 0x1_0000
    ensures ReadBody(Unit(u) + more)
            == var next := ReadUnit(more);
               if High(u) && next.Some? && Low(next.value) then Cons(Join(u, next.value), ReadBody(more[6..]))
               else Cons(u, ReadBody(more))
  {
    UnitReads(u, more);
    var t := Unit(u) + more;
    assert t[0] == BACKSLASH && t[1] == LOWER_U && t[6..] == more;
    if ReadUnit(more).Some? {
      assert t[12..] == more[6..];
    }
  }

  lemma AloneReads(u: int, more: Str)
    requires 0 <= u < 0x1_0000
    requires High(u) ==> ReadUnit(more).None? || !Low(ReadUnit(more).value)
    ensures ReadBody(Unit(u) + more) == Cons(u, ReadBody(more))
  {
    UnitStep(u, more);
  }

  lemma PairReads(high: int, low: int, more: Str)
    requires High(high) && Low(low)
    ensures ReadBody(Unit(high) + (Unit(low) + more)) == Cons(Join(high, low), ReadBody(more))
  {
    var rest := Unit(low) + more;
    UnitReads(low, more);
    UnitStep(high, rest);
    assert rest[6..] == more;
  }

  /** The text left to read after the first character of `s` was written. */
  ghost function Ahead(s: Str, tail: Str): Str { Body(s) + [QUOTE] + tail }

  lemma AheadNext(s: Str, tail: Str)
    requires s != []
    ensures Ahead(s, tail) == Escape(s[0]) + Ahead(s[1..], tail)
  {}

  // What follows an escaped high surrogate is a low one only if it was written
  // for one.
  lemma NoLowAhead(s: Str, tail: Str)
    requires s == [] || !Low(s[0])
    ensures var next := ReadUnit(Ahead(s, tail)); next.Some? ==> !Low(next.value)
  {
    if s != [] {
      var c, more := s[0], Ahead(s[1..], tail);
      AheadNext(s, tail);
      if Plain(c) {
        PlainReads(c, more);
      } else if c < 0x1_0000 {
        UnitReads(c, more);
      } else {
        RegroupPair(Unit(HighOf(c)), Unit(LowOf(c)), more);
        UnitReads(HighOf(c), Unit(LowOf(c)) + more);
      }
    }
  }

  lemma AstralPair(c: Code)
    requires c >= 0x1_0000
    ensures Join(HighOf(c), LowOf(c)) == c
  {}

  lemma RegroupPair(a: Str, b: Str, more: Str)
    ensures a + b + more == a + (b + more)
  {}

  // A code point beyond the basic plane is written as a pair.
  lemma AstralReads(c: Code, more: Str)
    requires c >= 0x1_0000
    ensures ReadBody(Escape(c) + more) == Cons(c, ReadBody(more))
  {
    AstralPair(c);
    RegroupPair(Unit(HighOf(c)), Unit(LowOf(c)), more);
    PairReads(HighOf(c), LowOf(c), more);
  }

  lemma LoneReads(s: Str, tail: Str)
    requires s != [] && !PairAhead(s) && !Plain(s[0]) && s[0] < 0x1_0000
    ensures ReadBody(Escape(s[0]) + Ahead(s[1..], tail)) == Cons(s[0], ReadBody(Ahead(s[1..], tail)))
  {
    if High(s[0]) {
      NoLowAhead(s[1..], tail);
    }
    AloneReads(s[0], Ahead(s[1..], tail));
  }

  lemma HeadReads(s: Str, tail: Str)
    requires s != [] && !PairAhead(s)
    ensures ReadBody(Ahead(s, tail)) == Cons(s[0], ReadBody(Ahead(s[1..], tail)))
  {
    AheadNext(s, tail);
    if Plain(s[0]) {
      PlainReads(s[0], Ahead(s[1..], tail));
    } else if s[0] >= 0x1_0000 {
      AstralReads(s[0], Ahead(s[1..], tail));
    } else {
      LoneReads(s, tail);
    }
  }

  lemma HeadPairReads(s: Str, tail: Str)
    requires PairAhead(s)
    ensures ReadBody(Ahead(s, tail)) == Cons(Join(s[0], s[1]), ReadBody(Ahead(s[2..], tail)))
  {
    AheadNext(s, tail);
    AheadNext(s[1..], tail);
    assert s[1..][1..] == s[2..];
    PairReads(s[0], s[1], Ahead(s[2..], tail));
  }

  /** Reading back a written string gives it with its surrogate pairs joined. */
  lemma {:induction false} BodyRoundTrip(s: Str, tail: Str)
    ensures ReadBody(Ahead(s, tail)) == Some((Collapse(s), tail))
    decreases |s|
  {
    if s == [] {
      assert Ahead(s, tail)[1..] == tail;
    } else if PairAhead(s) {
      HeadPairReads(s, tail);
      BodyRoundTrip(s[2..], tail);
    } else {
      HeadReads(s, tail);
      BodyRoundTrip(s[1..], tail);
    }
  }

  lemma {:induction false} CollapseKeeps(s: Str)
    requires NoPair(s)
    ensures Collapse(s) == s
  {
    if s != [] {
      assert NoPair(s[1..]) by {
        forall i | 0 <= i < |s[1..]| - 1 ensures !(High(s[1..][i]) && Low(s[1..][i + 1])) {
          assert s[1..][i] == s[i + 1] && s[1..][i + 1] == s[i + 2];
        }
      }
      assert !(|s| >= 2 && High(s[0]) && Low(s[0 + 1]));
      CollapseKeeps(s[1..]);
    }
  }

  lemma {:induction false} CollapseHasNoPair(s: Str)
    ensures NoPair(Collapse(s))
    ensures s == [] <==> Collapse(s) == []
    ensures s != [] && Low(Collapse(s)[0]) ==> Low(s[0])
  {
    if PairAhead(s) {
      CollapseHasNoPair(s[2..]);
    } else if s != [] {
      CollapseHasNoPair(s[1..]);
    }
  }

  /** A string survives being written and read exactly when it has no adjacent
      surrogate pair. */
  lemma StringSurvives(s: Str)
    ensures Loads(Dumps(JStr(s))) == Some(JStr(s)) <==> NoPair(s)
  {
    BodyRoundTrip(s, []);
    var t := Dumps(JStr(s));
    assert t[1..] == Ahead(s, []);
    assert Loads(t) == Some(JStr(Collapse(s)));
    if NoPair(s) {
      CollapseKeeps(s);
    } else {
      CollapseHasNoPair(s);
    }
  }

  // ---- values ---------------------------------------------------------------

  /** The value with the surrogate pairs of all its strings joined. */
  function CollapseValue(v: Value): Value
    decreases v, 0
  {
    match v
    case JStr(s) => JStr(Collapse(s))
    case JArr(items) => JArr(CollapseItems(items))
    case JObj(fields) => JObj(CollapseFields(fields))
  }

  function CollapseItems(items: seq<Value>): seq<Value>
    decreases items, 0
  {
    if items == [] then [] else [CollapseValue(items[0])] + CollapseItems(items[1..])
  }

  function CollapseFields(fields: seq<Field>): seq<Field>
    decreases fields, 0
  {
    if fields == [] then []
    else [Field(Collapse(fields[0].key), CollapseValue(fields[0].val))] + CollapseFields(fields[1..])
  }

  predicate Starts(t: Str) { t != [] && t[0] in {QUOTE, LBRACKET, LBRACE, RBRACKET, RBRACE, COMMA, COLON} }

  lemma NoSpace(t: Str)
    requires Starts(t)
    ensures SkipSpace(t) == t && SkipSpace([SPACE] + t) == t
  {
    assert ([SPACE] + t)[1..] == t;
  }

  lemma DumpsStarts(v: Value, tail: Str)
    ensures Starts(Dumps(v) + tail) && (Dumps(v) + tail)[0] !in {RBRACKET, RBRACE}
  {}

  lemma QuotedReads(s: Str, tail: Str)
    ensures var t := Quoted(s) + tail;
            t[0] == QUOTE && ReadBody(t[1..]) == Some((Collapse(s), tail))
  {
    var t := Quoted(s) + tail;
    assert t[1..] == Ahead(s, tail);
    BodyRoundTrip(s, tail);
  }

  /** Reading a written value gives it with its surrogate pairs joined, and
      stops where it ended. */
  lemma {:induction false} ValueRoundTrip(v: Value, tail: Str)
    ensures ReadValue(Dumps(v) + tail) == Some((CollapseValue(v), tail))
    decreases v, 0
  {
    var t := Dumps(v) + tail;
    match v {
      case JStr(s) =>
        QuotedReads(s, tail);
      case JArr(items) =>
        if items == [] {
          assert Dumps(v) == [LBRACKET, RBRACKET];
          assert t[1..] == [RBRACKET] + tail;
          NoSpace([RBRACKET] + tail);
        } else {
          var inner := DumpItems(items) + ([RBRACKET] + tail);
          assert t[1..] == inner;
          ItemsRoundTrip(items, tail);
          ItemsStart(items, [RBRACKET] + tail);
          NoSpace(inner);
        }
      case JObj(fields) =>
        if fields == [] {
          assert Dumps(v) == [LBRACE, RBRACE];
          assert t[1..] == [RBRACE] + tail;
          NoSpace([RBRACE] + tail);
        } else {
          var inner := DumpFields(fields) + ([RBRACE] + tail);
          assert t[1..] == inner;
          FieldsRoundTrip(fields, tail);
          FieldsStart(fields, [RBRACE] + tail);
          NoSpace(inner);
        }
    }
  }

  lemma ItemsStart(items: seq<Value>, tail: Str)
    requires items != []
    ensures Starts(DumpItems(items) + tail) && (DumpItems(items) + tail)[0] !in {RBRACKET, RBRACE}
  {
    var rest := (if |items| == 1 then [] else [COMMA, SPACE] + DumpItems(items[1..])) + tail;
    assert DumpItems(items) + tail == Dumps(items[0]) + rest;
    DumpsStarts(items[0], rest);
  }

  lemma LastItem(t: Str, v: Value, tail: Str)
    requires ReadValue(t) == Some((v, [RBRACKET] + tail))
    ensures ReadItems(t) == Some(([v], tail))
  {
    NoSpace([RBRACKET] + tail);
    assert ([RBRACKET] + tail)[1..] == tail;
  }

  lemma NextItem(t: Str, v: Value, more: Str, items: seq<Value>, tail: Str)
    requires ReadValue(t) == Some((v, [COMMA] + ([SPACE] + more)))
    requires Starts(more) && ReadItems(more) == Some((items, tail))
    ensures ReadItems(t) == Some(([v] + items, tail))
  {
    NoSpace([COMMA] + ([SPACE] + more));
    assert ([COMMA] + ([SPACE] + more))[1..] == [SPACE] + more;
    NoSpace(more);
  }

  lemma RegroupItem(v: Str, more: Str, close: Str)
    ensures v + ([COMMA, SPACE] + more) + close == v + ([COMMA] + ([SPACE] + (more + close)))
  {}

  lemma {:induction false} ItemsRoundTrip(items: seq<Value>, tail: Str)
    requires items != []
    ensures ReadItems(DumpItems(items) + ([RBRACKET] + tail)) == Some((CollapseItems(items), tail))
    decreases items, 0
  {
    var close, v := [RBRACKET] + tail, items[0];
    if |items| == 1 {
      assert DumpItems(items) == Dumps(v) + [] == Dumps(v);
      ValueRoundTrip(v, close);
      LastItem(Dumps(v) + close, CollapseValue(v), tail);
      OneItem(items);
    } else {
      var more := DumpItems(items[1..]) + close;
      RegroupItem(Dumps(v), DumpItems(items[1..]), close);
      ValueRoundTrip(v, [COMMA] + ([SPACE] + more));
      ItemsStart(items[1..], close);
      ItemsRoundTrip(items[1..], tail);
      NextItem(DumpItems(items) + close, CollapseValue(v), more, CollapseItems(items[1..]), tail);
    }
  }

  lemma OneItem(items: seq<Value>)
    requires |items| == 1
    ensures CollapseItems(items) == [CollapseValue(items[0])]
  {
    assert items[1..] == [];
  }

  // A field: its key, a colon, a space, its value, and then `rest`.
  lemma FieldReads(key: Str, v: Value, rest: Str)
    requires ReadValue(Dumps(v) + rest) == Some((CollapseValue(v), rest))
    ensures var t := Quoted(key) + ([COLON] + ([SPACE] + (Dumps(v) + rest)));
            && t[0] == QUOTE
            && ReadBody(t[1..]) == Some((Collapse(key), [COLON] + ([SPACE] + (Dumps(v) + rest))))
            && ReadValue(SkipSpace(SkipSpace([COLON] + ([SPACE] + (Dumps(v) + rest)))[1..]))
               == Some((CollapseValue(v), rest))
            && SkipSpace([COLON] + ([SPACE] + (Dumps(v) + rest)))[0] == COLON
  {
    var value := Dumps(v) + rest;
    var colon := [COLON] + ([SPACE] + value);
    QuotedReads(key, colon);
    NoSpace(colon);
    assert colon[1..] == [SPACE] + value;
    DumpsStarts(v, rest);
    NoSpace(value);
  }

  lemma LastField(key: Str, v: Value, tail: Str)
    requires ReadValue(Dumps(v) + ([RBRACE] + tail)) == Some((CollapseValue(v), [RBRACE] + tail))
    ensures ReadFields(Quoted(key) + ([COLON] + ([SPACE] + (Dumps(v) + ([RBRACE] + tail)))))
            == Some(([Field(Collapse(key), CollapseValue(v))], tail))
  {
    FieldReads(key, v, [RBRACE] + tail);
    NoSpace([RBRACE] + tail);
    assert ([RBRACE] + tail)[1..] == tail;
  }

  lemma NextField(key: Str, v: Value, more: Str, fields: seq<Field>, tail: Str)
    requires var rest := [COMMA] + ([SPACE] + more);
             ReadValue(Dumps(v) + rest) == Some((CollapseValue(v), rest))
    requires Starts(more) && ReadFields(more) == Some((fields, tail))
    ensures ReadFields(Quoted(key) + ([COLON] + ([SPACE] + (Dumps(v) + ([COMMA] + ([SPACE] + more))))))
            == Some(([Field(Collapse(key), CollapseValue(v))] + fields, tail))
  {
    var rest := [COMMA] + ([SPACE] + more);
    FieldReads(key, v, rest);
    NoSpace(rest);
    assert rest[1..] == [SPACE] + more;
    NoSpace(more);
  }

  lemma Regroup(key: Str, v: Str, tail: Str, close: Str)
    ensures key + [COLON, SPACE] + v + tail + close == key + ([COLON] + ([SPACE] + (v + (tail + close))))
  {}

  lemma RegroupComma(more: Str, close: Str)
    ensures [COMMA, SPACE] + more + close == [COMMA] + ([SPACE] + (more + close))
  {}

  // A written list of fields, cut after its first value.
  lemma CutLast(fields: seq<Field>, close: Str)
    requires |fields| == 1
    ensures DumpFields(fields) + close
            == Quoted(fields[0].key) + ([COLON] + ([SPACE] + (Dumps(fields[0].val) + close)))
  {
    Regroup(Quoted(fields[0].key), Dumps(fields[0].val), [], close);
    assert [] + close == close;
  }

  lemma CutNext(fields: seq<Field>, close: Str)
    requires |fields| > 1
    ensures DumpFields(fields) + close
            == Quoted(fields[0].key)
               + ([COLON] + ([SPACE]
                  + (Dumps(fields[0].val) + ([COMMA] + ([SPACE] + (DumpFields(fields[1..]) + close))))))
  {
    var more := DumpFields(fields[1..]);
    Regroup(Quoted(fields[0].key), Dumps(fields[0].val), [COMMA, SPACE] + more, close);
    RegroupComma(more, close);
  }

  lemma {:induction false} FieldsRoundTrip(fields: seq<Field>, tail: Str)
    requires fields != []
    ensures ReadFields(DumpFields(fields) + ([RBRACE] + tail)) == Some((CollapseFields(fields), tail))
    decreases fields, 0
  {
    var close := [RBRACE] + tail;
    var key, v := fields[0].key, fields[0].val;
    if |fields| == 1 {
      CutLast(fields, close);
      ValueRoundTrip(v, close);
      LastField(key, v, tail);
      assert fields[1..] == [];
      assert CollapseFields(fields) == [Field(Collapse(key), CollapseValue(v))];
    } else {
      CutNext(fields, close);
      var more := DumpFields(fields[1..]) + close;
      ValueRoundTrip(v, [COMMA] + ([SPACE] + more));
      FieldsRoundTrip(fields[1..], tail);
      FieldsStart(fields[1..], close);
      NextField(key, v, more, CollapseFields(fields[1..]), tail);
    }
  }

  lemma FieldsStart(fields: seq<Field>, close: Str)
    requires fields != []
    ensures Starts(DumpFields(fields) + close) && (DumpFields(fields) + close)[0] == QUOTE
  {
    if |fields| == 1 {
      CutLast(fields, close);
    } else {
      CutNext(fields, close);
    }
  }

  /** `json.loads` of `json.dumps`. */
  lemma LoadsDumps(v: Value)
    ensures Loads(Dumps(v)) == Some(CollapseValue(v))
  {
    assert Dumps(v) + [] == Dumps(v);
    DumpsStarts(v, []);
    NoSpace(Dumps(v));
    ValueRoundTrip(v, []);
  }

  // ---- what is written ------------------------------------------------------

  /** The escapes: two characters for the quote, the backslash and five control
      characters, the character itself if it is printable ASCII, and otherwise the
      code units of UTF-16 in four digits each. */
  lemma EscapesMean(c: Code)
    ensures c == '"' as int ==> Escape(c) == Lit("\\\"")
    ensures c == '\\' as int ==> Escape(c) == Lit("\\\\")
    ensures (c == 10 ==> Escape(c) == Lit("\\n")) && (c == 13 ==> Escape(c) == Lit("\\r"))
    ensures c == 9 ==> Escape(c) == Lit("\\t")
    ensures (c == 12 ==> Escape(c) == Lit("\\f")) && (c == 8 ==> Escape(c) == Lit("\\b"))
    ensures ' ' as int <= c <= '~' as int && c != '"' as int && c != '\\' as int ==> Escape(c) == [c]
    ensures c < 0x1_0000 && !(' ' as int <= c <= '~' as int) && c !in {8, 9, 10, 12, 13} ==> Escape(c) == Unit(c)
    ensures c >= 0x1_0000 ==>
              Escape(c) == Unit(0xd800 + (c - 0x1_0000) / 0x400) + Unit(0xdc00 + (c - 0x1_0000) % 0x400)
  {}

  function Nibble(c: Code): int { if c <= '9' as int then c - '0' as int else c - 'a' as int + 10 }

  /** Four hexadecimal digits, most significant first. */
  lemma UnitMeans(n: int)
    requires 0 <= n < 0x1_0000
    ensures |Unit(n)| == 6 && Unit(n)[..2] == Lit("\\u")
    ensures forall i | 2 <= i < 6 ::
              '0' as int <= Unit(n)[i] <= '9' as int || 'a' as int <= Unit(n)[i] <= 'f' as int
    ensures var u := Unit(n);
            ((Nibble(u[2]) * 16 + Nibble(u[3])) * 16 + Nibble(u[4])) * 16 + Nibble(u[5]) == n
  {
    var a, b, c, d := n / 4096, n / 256 % 16, n / 16 % 16, n % 16;
    assert Nibble(Hex(a)) == a && Nibble(Hex(b)) == b && Nibble(Hex(c)) == c && Nibble(Hex(d)) == d;
    UnitDigits(n);
    assert FourDigits(a, b, c, d) == ((a * 16 + b) * 16 + c) * 16 + d;
  }

  predicate Ascii(s: Str) { forall i | 0 <= i < |s| :: ' ' as int <= s[i] <= '~' as int }

  lemma EscapeAscii(c: Code)
    ensures Ascii(Escape(c))
  {
    if Short(c).None? && !(32 <= c <= 126) {
      if c < 0x1_0000 {
        UnitAscii(c);
      } else {
        UnitAscii(HighOf(c));
        UnitAscii(LowOf(c));
        AsciiConcat(Unit(HighOf(c)), Unit(LowOf(c)));
      }
    }
  }

  lemma UnitAscii(n: int)
    requires 0 <= n < 0x1_0000
    ensures Ascii(Unit(n))
  {}

  lemma AsciiConcat(a: Str, b: Str)
    requires Ascii(a) && Ascii(b)
    ensures Ascii(a + b)
  {}

  lemma {:induction false} BodyAscii(s: Str)
    ensures Ascii(Body(s))
  {
    if s != [] {
      EscapeAscii(s[0]);
      BodyAscii(s[1..]);
      AsciiConcat(Escape(s[0]), Body(s[1..]));
    }
  }

  lemma QuotedAscii(s: Str)
    ensures Ascii(Quoted(s))
  {
    BodyAscii(s);
    AsciiConcat([QUOTE] + Body(s), [QUOTE]);
  }

  /** What is written is printable ASCII throughout, so as many bytes as characters. */
  lemma DumpsAscii(v: Value)
    ensures Ascii(Dumps(v))
    decreases v, 0
  {
    match v {
      case JStr(s) => QuotedAscii(s);
      case JArr(items) => ItemsAscii(items);
      case JObj(fields) => FieldsAscii(fields);
    }
  }

  lemma ItemsAscii(items: seq<Value>)
    ensures Ascii(DumpItems(items))
    decreases items, 0
  {
    if items != [] {
      DumpsAscii(items[0]);
      if |items| > 1 {
        ItemsAscii(items[1..]);
        AsciiConcat([COMMA, SPACE], DumpItems(items[1..]));
      }
    }
  }

  lemma FieldsAscii(fields: seq<Field>)
    ensures Ascii(DumpFields(fields))
    decreases fields, 0
  {
    if fields != [] {
      var key, val := Quoted(fields[0].key), Dumps(fields[0].val);
      QuotedAscii(fields[0].key);
      DumpsAscii(fields[0].val);
      AsciiConcat(key, [COLON, SPACE]);
      AsciiConcat(key + [COLON, SPACE], val);
      if |fields| > 1 {
        FieldsAscii(fields[1..]);
        AsciiConcat([COMMA, SPACE], DumpFields(fields[1..]));
      }
    }
  }

  /** Objects and arrays, their commas and colons each followed by a space. */
  lemma ShapeMeans(key: Str, val: Value, more: seq<Field>, items: seq<Value>)
    ensures Dumps(JObj([])) == Lit("{}") && Dumps(JArr([])) == Lit("[]")
    ensures Dumps(JObj([Field(key, val)])) == Lit("{") + Quoted(key) + Lit(": ") + Dumps(val) + Lit("}")
    ensures more != [] ==>
              DumpFields([Field(key, val)] + more)
              == Quoted(key) + Lit(": ") + Dumps(val) + Lit(", ") + DumpFields(more)
    ensures Dumps(JArr([val])) == Lit("[") + Dumps(val) + Lit("]")
    ensures items != [] ==> DumpItems([val] + items) == Dumps(val) + Lit(", ") + DumpItems(items)
    ensures Quoted(key) == Lit("\"") + Body(key) + Lit("\"")
  {
    assert Lit("{") == [LBRACE] && Lit("}") == [RBRACE] && Lit("[") == [LBRACKET] && Lit("]") == [RBRACKET];
    assert Lit(", ") == [COMMA, SPACE] && Lit(": ") == [COLON, SPACE] && Lit("\"") == [QUOTE];
    ObjectMeans(key, val, more);
    ArrayMeans(val, items);
  }

  lemma ObjectMeans(key: Str, val: Value, more: seq<Field>)
    ensures Dumps(JObj([Field(key, val)])) == [LBRACE] + Quoted(key) + [COLON, SPACE] + Dumps(val) + [RBRACE]
    ensures more != [] ==>
              DumpFields([Field(key, val)] + more)
              == Quoted(key) + [COLON, SPACE] + Dumps(val) + [COMMA, SPACE] + DumpFields(more)
  {
    var one := [Field(key, val)];
    assert DumpFields(one) == Quoted(key) + [COLON, SPACE] + Dumps(val);
    assert (one + more)[1..] == more && (one + more)[0] == one[0];
  }

  lemma ArrayMeans(val: Value, items: seq<Value>)
    ensures Dumps(JArr([val])) == [LBRACKET] + Dumps(val) + [RBRACKET]
    ensures items != [] ==> DumpItems([val] + items) == Dumps(val) + [COMMA, SPACE] + DumpItems(items)
  {
    assert DumpItems([val]) == Dumps(val);
    assert ([val] + items)[1..] == items;
  }
}
