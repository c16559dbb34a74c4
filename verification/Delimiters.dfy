/** Composite resource identifiers: parts escaped and joined with bars. */
module Delimiters {
  import opened Sequences
  import opened Wrappers

  /** Every occurrence of one character replaced by a text. */
  function Replace(s: string, c: char, with: string): string {
    if s == "" then "" else (if s[0] == c then with else [s[0]]) + Replace(s[1..], c, with)
  }

  function EscapeDelimiters(s: string): string { Replace(Replace(s, '^', "^^"), '|', "^|") }

  // ---------- Two passes are one character map ----------

  function EscapeChar(c: char): string {
    if c == '^' then "^^" else if c == '|' then "^|" else [c]
  }

  function MapChars(s: string): string { if s == "" then "" else EscapeChar(s[0]) + MapChars(s[1..]) }

  lemma {:induction false} ReplaceInOrder(a: string, b: string, c: char, with: string)
    ensures Replace(a + b, c, with) == Replace(a, c, with) + Replace(b, c, with)
  {
    if a == "" {
      assert a + b == b;
    } else {
      assert (a + b)[1..] == a[1..] + b;
      ReplaceInOrder(a[1..], b, c, with);
    }
  }

  lemma ReplaceShort(c: char, with: string, x: char, y: char)
    ensures Replace([x], c, with) == if x == c then with else [x]
    ensures Replace([x, y], c, with) == Replace([x], c, with) + Replace([y], c, with)
  {
    assert [x][1..] == "" && [x, y][1..] == [y] && [y][1..] == "";
  }

  /** The second pass never touches what the first one wrote. */
  lemma {:induction false} TwoPassesAreOne(s: string)
    ensures EscapeDelimiters(s) == MapChars(s)
  {
    if s != "" {
      TwoPassesAreOne(s[1..]);
      var first := if s[0] == '^' then "^^" else [s[0]];
      ReplaceInOrder(first, Replace(s[1..], '^', "^^"), '|', "^|");
      ReplaceShort('|', "^|", s[0], s[0]);
    }
  }

  // ---------- Splitting undoes escaping and joining ----------

  function Join(parts: seq<string>): string
    requires parts != []
  {
    if |parts| == 1 then EscapeDelimiters(parts[0]) else EscapeDelimiters(parts[0]) + "|" + Join(parts[1..])
  }

  function Prepend(c: char, parts: seq<string>): seq<string>
    requires parts != []
  {
    [[c] + parts[0]] + parts[1..]
  }

  /** The parts between unescaped bars, with escapes removed. */
  function Split(s: string): (parts: seq<string>)
    ensures parts != []
  {
    if s == "" then [""]
    else if s[0] == '^' && |s| > 1 then Prepend(s[1], Split(s[2..]))
    else if s[0] == '|' then [""] + Split(s[1..])
    else Prepend(s[0], Split(s[1..]))
  }

  lemma SplitPassesChar(c: char, tail: string)
    ensures Split(EscapeChar(c) + tail) == Prepend(c, Split(tail))
  {
    var text := EscapeChar(c) + tail;
    assert text[|EscapeChar(c)|..] == tail;
  }

  lemma {:induction false} SplitPassesEscaped(s: string, rest: string)
    ensures Split(MapChars(s) + rest) == [s + Split(rest)[0]] + Split(rest)[1..]
  {
    if s == "" {
      assert MapChars(s) + rest == rest && s + Split(rest)[0] == Split(rest)[0];
    } else {
      var tail := MapChars(s[1..]) + rest;
      SplitPassesEscaped(s[1..], rest);
      SplitPassesChar(s[0], tail);
      ConcatIsAssociative(EscapeChar(s[0]), MapChars(s[1..]), rest);
      ConcatIsAssociative([s[0]], s[1..], Split(rest)[0]);
      assert [s[0]] + s[1..] == s;
    }
  }

  /** Splitting at unescaped bars and unescaping gives back the parts of every nonempty list. */
  lemma {:induction false} SplitUndoesJoin(parts: seq<string>)
    requires parts != []
    ensures Split(Join(parts)) == parts
  {
    TwoPassesAreOne(parts[0]);
    if |parts| == 1 {
      SplitPassesEscaped(parts[0], "");
      assert MapChars(parts[0]) + "" == MapChars(parts[0]) && parts[0] + "" == parts[0];
    } else {
      var rest := "|" + Join(parts[1..]);
      SplitUndoesJoin(parts[1..]);
      SplitPassesEscaped(parts[0], rest);
      assert rest[1..] == Join(parts[1..]) && parts[0] + "" == parts[0];
      assert Join(parts) == MapChars(parts[0]) + rest;
    }
  }

  lemma JoinIsInjective(a: seq<string>, b: seq<string>)
    requires a != [] && b != []
    ensures Join(a) == Join(b) <==> a == b
  {
    SplitUndoesJoin(a);
    SplitUndoesJoin(b);
  }

  lemma JoinTwo(a: string, b: string)
    ensures Join([a, b]) == EscapeDelimiters(a) + "|" + EscapeDelimiters(b)
  {
    assert [a, b][1..] == [b];
  }

  /** Identifiers of one part and of two, as the generator writes them, determine their parts. */
  lemma IdentifiersDetermineParts(a: string, b: string, c: string, d: string)
    ensures EscapeDelimiters(a) == EscapeDelimiters(b) <==> a == b
    ensures EscapeDelimiters(a) + "|" + EscapeDelimiters(b) == EscapeDelimiters(c) + "|" + EscapeDelimiters(d)
       <==> a == c && b == d
  {
    JoinIsInjective([a], [b]);
    JoinIsInjective([a, b], [c, d]);
    JoinTwo(a, b);
    JoinTwo(c, d);
    assert [a] == [b] <==> a == b;
    assert [a, b] == [c, d] <==> a == c && b == d;
  }

  // ---------- Database connections ----------

  function IntText(n: int): string { if n < 0 then "-" + Decimal(-n) else Decimal(n) }

  predicate HasNoDelimiters(s: string) { forall i | 0 <= i < |s| :: s[i] != '^' && s[i] != '|' }

  lemma {:induction false} NoDelimitersNoEscapes(s: string)
    requires HasNoDelimiters(s)
    ensures EscapeDelimiters(s) == s
  {
    TwoPassesAreOne(s);
    if s != "" {
      NoDelimitersNoEscapes(s[1..]);
      TwoPassesAreOne(s[1..]);
    }
  }

  lemma {:induction false} DecimalDigits(n: nat)
    ensures Decimal(n) != "" && forall i | 0 <= i < |Decimal(n)| :: '0' <= Decimal(n)[i] <= '9'
  {
    if n >= 10 {
      DecimalDigits(n / 10);
    }
  }

  lemma {:induction false} DecimalIsInjective(a: nat, b: nat)
    requires Decimal(a) == Decimal(b)
    ensures a == b
  {
    DecimalDigits(a / 10);
    DecimalDigits(b / 10);
    var x, y := Decimal(a), Decimal(b);
    assert x[|x| - 1] as int - '0' as int == a % 10 && y[|y| - 1] as int - '0' as int == b % 10;
    if a >= 10 && b >= 10 {
      assert x[..|x| - 1] == Decimal(a / 10) && y[..|y| - 1] == Decimal(b / 10);
      DecimalIsInjective(a / 10, b / 10);
    }
  }

  lemma IntTextIsPlain(n: int)
    ensures HasNoDelimiters(IntText(n)) && IntText(n) != ""
  {
    DecimalDigits(if n < 0 then -n else n);
  }

  lemma IntTextIsInjective(a: int, b: int)
    ensures IntText(a) == IntText(b) <==> a == b
  {
    DecimalDigits(if a < 0 then -a else a);
    DecimalDigits(if b < 0 then -b else b);
    if IntText(a) == IntText(b) {
      assert IntText(a)[0] == '-' <==> a < 0;
      assert IntText(b)[0] == '-' <==> b < 0;
      if a < 0 {
        assert IntText(a)[1..] == Decimal(-a) && IntText(b)[1..] == Decimal(-b);
        DecimalIsInjective(-a, -b);
      } else {
        DecimalIsInjective(a, b);
      }
    }
  }

  /** An address, and the port that is shown with it. */
  datatype Endpoint = Endpoint(address: string, port: Option<int>)

  function EndpointText(e: Endpoint): string {
    EscapeDelimiters(e.address) + if e.port.Some? then "|" + IntText(e.port.value) else ""
  }

  /** A name is only put before a connection text that is not empty. */
  function DbConnectionId(name: Option<string>, e: Endpoint): string {
    if name.GetOr("") != "" && EndpointText(e) != "" then EscapeDelimiters(name.value) + "|" + EndpointText(e)
    else EndpointText(e)
  }

  function ShownName(name: Option<string>, e: Endpoint): Option<string> {
    if name.GetOr("") != "" && (e.address != "" || e.port.Some?) then name else None
  }

  function ConnectionParts(name: Option<string>, e: Endpoint): (parts: seq<string>)
    ensures parts != []
  {
    var shown := ShownName(name, e);
    (if shown.Some? then [shown.value] else []) + [e.address] + (if e.port.Some? then [IntText(e.port.value)] else [])
  }

  lemma EndpointIsJoined(e: Endpoint)
    ensures EndpointText(e) == Join([e.address] + if e.port.Some? then [IntText(e.port.value)] else [])
    ensures EndpointText(e) == "" <==> e.address == "" && e.port.None?
  {
    IdentifiersDetermineParts(e.address, "", "", "");
    if e.port.Some? {
      IntTextIsPlain(e.port.value);
      NoDelimitersNoEscapes(IntText(e.port.value));
      JoinTwo(e.address, IntText(e.port.value));
    }
  }

  lemma ConnectionIsJoined(name: Option<string>, e: Endpoint)
    ensures DbConnectionId(name, e) == Join(ConnectionParts(name, e))
  {
    EndpointIsJoined(e);
    var parts := ConnectionParts(name, e);
    if ShownName(name, e).Some? {
      assert parts[1..] == [e.address] + if e.port.Some? then [IntText(e.port.value)] else [];
    } else {
      assert parts == [e.address] + if e.port.Some? then [IntText(e.port.value)] else [];
    }
  }

  /** A named database without port reads like an unnamed one whose address is the name and whose port the address. */
  ghost predicate Confused(n: Option<string>, e: Endpoint, n': Option<string>, e': Endpoint) {
    && ShownName(n, e).Some? && e.port.None? && ShownName(n', e').None? && e'.port.Some?
    && n == Some(e'.address) && e.address == IntText(e'.port.value)
  }

  /**
    Exactly when two database connections get the same identifier: they show the same name, address and port, or one
    of them is taken for the other.
   */
  lemma SameConnectionId(n: Option<string>, e: Endpoint, n': Option<string>, e': Endpoint)
    ensures DbConnectionId(n, e) == DbConnectionId(n', e')
       <==> (ShownName(n, e) == ShownName(n', e') && e == e') || Confused(n, e, n', e') || Confused(n', e', n, e)
  {
    var a, b := ConnectionParts(n, e), ConnectionParts(n', e');
    ConnectionIsJoined(n, e);
    ConnectionIsJoined(n', e');
    JoinIsInjective(a, b);
    if e.port.Some? && e'.port.Some? {
      IntTextIsInjective(e.port.value, e'.port.value);
    }
    if a == b {
      assert |a| == |b| && a[0] == b[0] && a[|a| - 1] == b[|b| - 1] && (|a| > 1 ==> a[1] == b[1]);
    }
    assert Confused(n, e, n', e') ==> a == [e'.address, e.address] == b;
    assert Confused(n', e', n, e) ==> b == [e.address, e'.address] == a;
  }

  /** One such pair. */
  lemma ConnectionsCanBeConfused()
    ensures DbConnectionId(Some("x"), Endpoint("5432", None)) == DbConnectionId(None, Endpoint("x", Some(5432)))
  {
    assert Decimal(5432) == "5432";
    assert Confused(Some("x"), Endpoint("5432", None), None, Endpoint("x", Some(5432)));
    SameConnectionId(Some("x"), Endpoint("5432", None), None, Endpoint("x", Some(5432)));
  }
}
