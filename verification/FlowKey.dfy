/** The direction-agnostic flow key of the Python example: a printer that is injective on
    unordered pairs of endpoints. */
module FlowKey {

  datatype Endpoint = Endpoint(ip: string, port: nat)

  datatype Parsed = Parsed(protocol: string, src: Endpoint, dst: Endpoint)

  // Comparison of strings by code points.
  predicate Less(a: string, b: string) {
    b != [] && (a == [] || a[0] < b[0] || (a[0] == b[0] && Less(a[1..], b[1..])))
  }

  function Digit(d: nat): (c: char)
    requires d < 10
  {
    "0123456789"[d]
  }

  // How a port number is printed.
  function Decimal(n: nat): (s: string)
    ensures s != []
  {
    if n < 10 then [Digit(n)] else Decimal(n / 10) + [Digit(n % 10)]
  }

  function Address(e: Endpoint): (s: string) { e.ip + ":" + Decimal(e.port) }

  // The format "{} {}:{} <-> {}:{}".
  function Format(protocol: string, a: Endpoint, b: Endpoint): (s: string) {
    protocol + " " + Address(a) + " <-> " + Address(b)
  }

  predicate InOrder(p: Parsed) {
    Less(p.src.ip, p.dst.ip) || (p.src.ip == p.dst.ip && p.src.port <= p.dst.port)
  }

  // ppkt_to_flow_key.
  function Key(p: Parsed): (k: string) {
    if Less(p.src.ip, p.dst.ip) then Format(p.protocol, p.src, p.dst)
    else if p.src.ip == p.dst.ip then
      if p.src.port <= p.dst.port then Format(p.protocol, p.src, p.dst) else Format(p.protocol, p.dst, p.src)
    else Format(p.protocol, p.dst, p.src)
  }

  // ---------------------------------------------------------------- the order

  lemma {:induction false} LessIsTotal(a: string, b: string)
    ensures !(Less(a, b) && Less(b, a)) && !Less(a, a)
    ensures Less(a, b) || a == b || Less(b, a)
  {
    if a != [] {
      if b != [] && a[0] == b[0] {
        LessIsTotal(a[1..], b[1..]);
        assert a == [a[0]] + a[1..] && b == [b[0]] + b[1..];
      }
      LessIsIrreflexive(a);
    }
  }

  lemma {:induction false} LessIsIrreflexive(a: string)
    ensures !Less(a, a)
  {
    if a != [] { LessIsIrreflexive(a[1..]); }
  }

  // The endpoints in the order they are printed.
  function First(p: Parsed): (e: Endpoint) { if InOrder(p) then p.src else p.dst }
  function Second(p: Parsed): (e: Endpoint) { if InOrder(p) then p.dst else p.src }

  lemma OrderIsCanonical(p: Parsed, q: Parsed)
    ensures First(p) == First(q) && Second(p) == Second(q) <==> {p.src, p.dst} == {q.src, q.dst}
  {
    LessIsTotal(p.src.ip, p.dst.ip);
    LessIsTotal(q.src.ip, q.dst.ip);
    assert {First(p), Second(p)} == {p.src, p.dst} && {First(q), Second(q)} == {q.src, q.dst};
    if {p.src, p.dst} == {q.src, q.dst} {
      assert p.src in {q.src, q.dst} && p.dst in {q.src, q.dst} && q.src in {p.src, p.dst} && q.dst in {p.src, p.dst};
    }
  }

  // ---------------------------------------------------------------- reading back

  function Value(s: string): (n: int) {
    if s == [] then 0 else 10 * Value(s[..|s| - 1]) + (s[|s| - 1] as int - '0' as int)
  }

  predicate IsDigit(c: char) { '0' <= c <= '9' }

  lemma {:induction false} DecimalReadsBack(n: nat)
    ensures Value(Decimal(n)) == n && forall c | c in Decimal(n) :: IsDigit(c)
  {
    if n < 10 {
      assert [Digit(n)][..0] == [];
    } else {
      DecimalReadsBack(n / 10);
      var s := Decimal(n);
      assert s[..|s| - 1] == Decimal(n / 10);
    }
  }

  // Where the separator is in neither left part, both parts can be told apart.
  lemma {:induction false} SplitsAtFirst(a: string, b: string, c: string, d: string, sep: char)
    requires sep !in a && sep !in c && a + [sep] + b == c + [sep] + d
    ensures a == c && b == d
  {
    if a == [] || c == [] {
      FirstIs(a, b, sep);
      FirstIs(c, d, sep);
    } else {
      assert (a + [sep] + b)[0] == a[0] && (c + [sep] + d)[0] == c[0];
      assert (a + [sep] + b)[1..] == a[1..] + [sep] + b;
      assert (c + [sep] + d)[1..] == c[1..] + [sep] + d;
      SplitsAtFirst(a[1..], b, c[1..], d, sep);
      assert a == [a[0]] + a[1..] && c == [c[0]] + c[1..];
    }
  }

  lemma FirstIs(a: string, b: string, sep: char)
    ensures var s := a + [sep] + b;
            s != [] && s[0] == (if a == [] then sep else a[0]) && (a == [] ==> s[1..] == b)
  {
  }

  lemma {:induction false} SplitsAtLast(a: string, b: string, c: string, d: string, sep: char)
    requires sep !in b && sep !in d && a + [sep] + b == c + [sep] + d
    ensures a == c && b == d
  {
    var s := a + [sep] + b;
    assert s[|a|] == sep && s[|c|] == sep;
    assert forall i | |a| < i < |s| :: s[i] == b[i - |a| - 1];
    assert forall i | |c| < i < |s| :: s[i] == d[i - |c| - 1];
    assert |a| == |c|;
    assert s[..|a|] == a && s[..|c|] == c && s[|a| + 1..] == b && s[|c| + 1..] == d;
  }

  lemma AddressIsInjective(a: Endpoint, b: Endpoint)
    requires Address(a) == Address(b)
    ensures a == b
  {
    DecimalReadsBack(a.port);
    DecimalReadsBack(b.port);
    SplitsAtLast(a.ip, Decimal(a.port), b.ip, Decimal(b.port), ':');
  }

  lemma AddressHasNoSpace(e: Endpoint)
    requires ' ' !in e.ip
    ensures ' ' !in Address(e)
  {
    DecimalReadsBack(e.port);
  }

  // ---------------------------------------------------------------- the printer

  lemma FormatIsInjective(p: string, a: Endpoint, b: Endpoint, q: string, c: Endpoint, d: Endpoint)
    requires ' ' !in p && ' ' !in q && ' ' !in a.ip && ' ' !in c.ip
    requires Format(p, a, b) == Format(q, c, d)
    ensures p == q && a == c && b == d
  {
    var x, y := Address(a) + " <-> " + Address(b), Address(c) + " <-> " + Address(d);
    assert Format(p, a, b) == p + [' '] + x && Format(q, c, d) == q + [' '] + y;
    SplitsAtFirst(p, x, q, y, ' ');
    AddressHasNoSpace(a);
    AddressHasNoSpace(c);
    assert x == Address(a) + [' '] + ("<-> " + Address(b)) && y == Address(c) + [' '] + ("<-> " + Address(d));
    SplitsAtFirst(Address(a), "<-> " + Address(b), Address(c), "<-> " + Address(d), ' ');
    AddressIsInjective(a, c);
    assert ("<-> " + Address(b))[4..] == Address(b) && ("<-> " + Address(d))[4..] == Address(d);
    AddressIsInjective(b, d);
  }

  predicate SpaceFree(p: Parsed) { ' ' !in p.protocol && ' ' !in p.src.ip && ' ' !in p.dst.ip }

  // Same key exactly for the same protocol and the same unordered pair of endpoints.
  lemma SameKeyIffSameFlow(p: Parsed, q: Parsed)
    requires SpaceFree(p) && SpaceFree(q)
    ensures Key(p) == Key(q) <==> p.protocol == q.protocol && {p.src, p.dst} == {q.src, q.dst}
  {
    assert Key(p) == Format(p.protocol, First(p), Second(p));
    assert Key(q) == Format(q.protocol, First(q), Second(q));
    OrderIsCanonical(p, q);
    if Key(p) == Key(q) {
      FormatIsInjective(p.protocol, First(p), Second(p), q.protocol, First(q), Second(q));
    }
  }

  // The key does not depend on the direction, with no condition on the strings.
  lemma KeyIsSymmetric(p: Parsed)
    ensures Key(p) == Key(Parsed(p.protocol, p.dst, p.src))
  {
    LessIsTotal(p.src.ip, p.dst.ip);
  }
}
