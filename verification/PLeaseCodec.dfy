/** Lease messages as text: snprintf one way, snreadf the other (PL/PLeaseMsg.cpp, netfram/common.cpp). A format is the
    sequence of its directives; a scan gives the number of characters read, or -1, and the values stored on the way. */
module PLeaseCodec {
  import opened PLease
  import opened Cycles

  const U32: nat := 0x1_0000_0000
  const U64: nat := 0x1_0000_0000_0000_0000

  // ----- decimal numbers

  predicate IsDigit(c: char) { '0' <= c <= '9' }

  function Digit(c: char): (d: nat)
    requires IsDigit(c)
    ensures d < 10
  {
    c as int - '0' as int
  }

  function DigitChar(d: nat): (c: char)
    requires d < 10
    ensures IsDigit(c) && Digit(c) == d
  {
    (d + '0' as int) as char
  }

  /** What %u and %llu print. */
  function Decimal(n: nat): (s: string)
    ensures s != [] && forall i :: 0 <= i < |s| ==> IsDigit(s[i])
  {
    if n < 10 then [DigitChar(n)] else Decimal(n / 10) + [DigitChar(n % 10)]
  }

  function ValueOf(s: string): nat
    requires forall i :: 0 <= i < |s| ==> IsDigit(s[i])
  {
    if s == [] then 0 else ValueOf(s[..|s| - 1]) * 10 + Digit(s[|s| - 1])
  }

  /** How many digits s starts with. */
  function DigitCount(s: string): (n: nat)
    ensures n <= |s| && forall i :: 0 <= i < n ==> IsDigit(s[i])
    ensures n < |s| ==> !IsDigit(s[n])
  {
    if s != [] && IsDigit(s[0]) then 1 + DigitCount(s[1..]) else 0
  }

  lemma {:induction false} DigitCountIs(s: string, n: nat)
    requires n <= |s| && forall i :: 0 <= i < n ==> IsDigit(s[i])
    requires n < |s| ==> !IsDigit(s[n])
    ensures DigitCount(s) == n
  {
    if n > 0 { DigitCountIs(s[1..], n - 1); }
  }

  lemma {:induction false} ValueOfDecimal(n: nat)
    ensures ValueOf(Decimal(n)) == n
  {
    if n >= 10 {
      ValueOfDecimal(n / 10);
      assert Decimal(n)[..|Decimal(n)| - 1] == Decimal(n / 10);
    } else {
      assert ValueOf([]) == 0 && Decimal(n)[..0] == [];
    }
  }

  /** Reading a printed number, the accumulator never exceeds the number: it cannot wrap around. */
  lemma {:induction false} PrefixesStayBelow(n: nat, k: nat)
    requires k <= |Decimal(n)|
    ensures ValueOf(Decimal(n)[..k]) <= n
  {
    ValueOfDecimal(n);
    if k == |Decimal(n)| {
      assert Decimal(n)[..k] == Decimal(n);
    } else if n >= 10 {
      PrefixesStayBelow(n / 10, k);
      assert Decimal(n)[..k] == Decimal(n / 10)[..k];
    }
  }

  function Power10(k: nat): nat { if k == 0 then 1 else 10 * Power10(k - 1) }

  lemma {:induction false} DecimalLength(n: nat, k: nat)
    requires k > 0 && n < Power10(k)
    ensures |Decimal(n)| <= k
  {
    if n >= 10 {
      assert Power10(1) == 10 * Power10(0);
      DecimalLength(n / 10, k - 1);
    }
  }

  lemma Powers()
    ensures Power10(10) > U32 && Power10(20) > U64
  {
    assert Power10(5) == 100000;
    assert Power10(10) == 10000000000;
    assert Power10(15) == 1000000000000000;
    assert Power10(20) == 100000000000000000000;
  }

  // ----- formats

  datatype Directive = Char | Unsigned | Unsigned64 | Literal(c: char)

  datatype Scanned = Scanned(read: int, values: seq<nat>)

  predicate IsNumber(d: Directive) { d.Unsigned? || d.Unsigned64? }

  function Width(d: Directive): nat { if d.Unsigned? then U32 else U64 }

  /** What the first directive takes, -1 if it fails, and stores. A number is stored before it is known to have digits. */
  function First(s: string, d: Directive): (r: Scanned)
    ensures -1 <= r.read <= |s|
  {
    match d
    case Char => if |s| < 1 then Scanned(-1, []) else Scanned(1, [s[0] as nat])
    case Literal(c) => if |s| < 1 || s[0] != c then Scanned(-1, []) else Scanned(1, [])
    case _ =>
      var n := DigitCount(s);
      if n < 1 then Scanned(-1, [0]) else Scanned(n, [ValueOf(s[..n]) % U64 % Width(d)])
  }

  /** r, then what t reads of the rest. */
  function Then(r: Scanned, t: Scanned): Scanned {
    Scanned(if t.read < 0 then -1 else r.read + t.read, r.values + t.values)
  }

  function Scan(s: string, f: seq<Directive>): (r: Scanned)
    ensures -1 <= r.read <= |s|
    decreases |f|
  {
    if f == [] then Scanned(0, [])
    else
      var r := First(s, f[0]);
      if r.read < 0 then r else Then(r, Scan(s[r.read..], f[1..]))
  }

  function Print(f: seq<Directive>, values: seq<nat>): string
    decreases |f|
  {
    if f == [] then []
    else if f[0].Literal? then [f[0].c] + Print(f[1..], values)
    else if values == [] then []
    else Piece(f[0], values[0]) + Print(f[1..], values[1..])
  }

  function Ascii(v: nat): char { if v < 0x80 then v as char else '?' }

  /** The values are what f can print and read back. */
  ghost predicate Printable(f: seq<Directive>, values: seq<nat>)
    decreases |f|
  {
    if f == [] then values == []
    else if f[0].Literal? then Printable(f[1..], values)
    else
      && values != [] && Printable(f[1..], values[1..])
      && values[0] < (if f[0].Char? then 0x80 else Width(f[0]))
  }

  /** After a number comes the end or a literal that is no digit. */
  ghost predicate Spaced(f: seq<Directive>) {
    forall i :: 0 <= i < |f| - 1 ==> IsNumber(f[i]) ==> f[i + 1].Literal? && !IsDigit(f[i + 1].c)
  }

  /** Scanning what was printed gives back the values and consumes everything. */
  lemma {:induction false} ScanPrint(f: seq<Directive>, values: seq<nat>)
    requires Spaced(f) && Printable(f, values)
    ensures Scan(Print(f, values), f) == Scanned(|Print(f, values)|, values)
    decreases |f|
  {
    if f != [] {
      var d := f[0];
      var vs := if d.Literal? then values else values[1..];
      var rest := Print(f[1..], vs);
      SpacedRest(f);
      ScanPrint(f[1..], vs);
      FirstPrinted(f, values, rest);
    }
  }

  lemma SpacedRest(f: seq<Directive>)
    requires f != [] && Spaced(f)
    ensures Spaced(f[1..])
  {
    forall i | 0 <= i < |f[1..]| - 1 && IsNumber(f[1..][i]) ensures f[1..][i + 1].Literal? && !IsDigit(f[1..][i + 1].c) {
      assert IsNumber(f[i + 1]);
    }
  }

  lemma FirstPrinted(f: seq<Directive>, values: seq<nat>, rest: string)
    requires f != [] && Spaced(f) && Printable(f, values)
    requires rest == Print(f[1..], if f[0].Literal? then values else values[1..])
    ensures var r := First(Print(f, values), f[0]);
            && 0 <= r.read && Print(f, values)[r.read..] == rest
            && r.values + (if f[0].Literal? then values else values[1..]) == values
  {
    if IsNumber(f[0]) {
      FirstNumber(f, values[0], rest);
      assert Print(f, values) == Decimal(values[0]) + rest;
    }
  }

  lemma FirstNumber(f: seq<Directive>, v: nat, rest: string)
    requires f != [] && IsNumber(f[0]) && v < Width(f[0])
    requires rest != [] ==> !IsDigit(rest[0])
    ensures First(Decimal(v) + rest, f[0]) == Scanned(|Decimal(v)|, [v])
  {
    var s, n := Decimal(v) + rest, |Decimal(v)|;
    DigitCountIs(s, n);
    assert s[..n] == Decimal(v);
    ValueOfDecimal(v);
    InWidth(v, f[0]);
  }

  lemma InWidth(v: nat, d: Directive)
    requires v < Width(d)
    ensures v % U64 % Width(d) == v
  {
    assert v % U64 == v;
    if d.Unsigned? { assert v % U32 == v; }
  }

  // ----- formats of fields separated by colons

  const COLON := Literal(':')

  function Spread(kinds: seq<Directive>): seq<Directive> {
    if |kinds| <= 1 then kinds else [kinds[0], COLON] + Spread(kinds[1..])
  }

  function Limit(d: Directive): nat { if d.Char? then 0x80 else Width(d) }

  /** Each value fits its kind. */
  ghost predicate Fit(kinds: seq<Directive>, values: seq<nat>) {
    |kinds| == |values| && forall i :: 0 <= i < |kinds| ==> !kinds[i].Literal? && values[i] < Limit(kinds[i])
  }

  lemma {:induction false} SpreadPrintable(kinds: seq<Directive>, values: seq<nat>)
    requires Fit(kinds, values)
    ensures Printable(Spread(kinds), values) && Spaced(Spread(kinds))
    ensures |Print(Spread(kinds), values)| <= 21 * |kinds|
  {
    var f := Spread(kinds);
    if kinds == [] {
      return;
    }
    OneField(kinds[0], values[0]);
    if |kinds| == 1 {
      assert f[1..] == [] && values[1..] == [] && Print(f, values) == Piece(kinds[0], values[0]) + Print(f[1..], values[1..]);
    } else {
      var g := Spread(kinds[1..]);
      SpreadPrintable(kinds[1..], values[1..]);
      assert f[1..] == [COLON] + g && f[1..][1..] == g;
      forall i | 0 <= i < |f| - 1 && IsNumber(f[i]) ensures f[i + 1].Literal? && !IsDigit(f[i + 1].c) {
        if i >= 2 { assert IsNumber(g[i - 2]); }
      }
      assert Printable(f[1..], values[1..]);
      assert Print(f[1..], values[1..]) == [':'] + Print(g, values[1..]);
      assert Print(f, values) == Piece(kinds[0], values[0]) + Print(f[1..], values[1..]);
    }
  }

  function Piece(d: Directive, v: nat): string { if d.Char? then [Ascii(v)] else Decimal(v) }

  lemma OneField(d: Directive, v: nat)
    requires !d.Literal? && v < Limit(d)
    ensures |Piece(d, v)| <= 20
  {
    if !d.Char? {
      Powers();
      DecimalLength(v, 20);
    }
  }

  // ----- messages

  function TypeOf(m: Msg): char {
    match m
    case PrepareRequest(_, _, _) => '1'
    case PrepareRejected(_, _) => '2'
    case PreparePreviouslyAccepted(_, _, _, _, _) => '3'
    case PrepareCurrentlyOpen(_, _) => '4'
    case ProposeRequest(_, _, _, _) => '5'
    case ProposeRejected(_, _) => '6'
    case ProposeAccepted(_, _) => '7'
    case LearnChosen(_, _, _, _) => '8'
  }

  /** The fields of a type; [] for no type. */
  function Kinds(t: char): seq<Directive> {
    if t == '1' then [Char, Unsigned, Unsigned64, Unsigned64]
    else if t == '3' then [Char, Unsigned, Unsigned64, Unsigned64, Unsigned, Unsigned]
    else if t == '5' then [Char, Unsigned, Unsigned64, Unsigned, Unsigned]
    else if t == '8' then [Char, Unsigned, Unsigned, Unsigned, Unsigned64]
    else if t == '2' || t == '4' || t == '6' || t == '7' then [Char, Unsigned, Unsigned64]
    else []
  }

  /** The fields in the order of the format. */
  function Fields(m: Msg): seq<nat> {
    [TypeOf(m) as nat] +
    match m
    case PrepareRequest(node, ballot, id) => [node, ballot, id]
    case PreparePreviouslyAccepted(node, ballot, accepted, owner, duration) => [node, ballot, accepted, owner, duration]
    case ProposeRequest(node, ballot, owner, duration) => [node, ballot, owner, duration]
    case LearnChosen(node, owner, duration, local) => [node, owner, duration, local]
    case _ => [m.node, m.ballot]
  }

  function FromFields(t: char, v: seq<nat>): Option<Msg> {
    if t == '1' && |v| == 4 then Some(PrepareRequest(v[1], v[2], v[3]))
    else if t == '3' && |v| == 6 then Some(PreparePreviouslyAccepted(v[1], v[2], v[3], v[4], v[5]))
    else if t == '5' && |v| == 5 then Some(ProposeRequest(v[1], v[2], v[3], v[4]))
    else if t == '8' && |v| == 5 then Some(LearnChosen(v[1], v[2], v[3], v[4]))
    else if |v| != 3 then None
    else if t == '2' then Some(PrepareRejected(v[1], v[2]))
    else if t == '4' then Some(PrepareCurrentlyOpen(v[1], v[2]))
    else if t == '6' then Some(ProposeRejected(v[1], v[2]))
    else if t == '7' then Some(ProposeAccepted(v[1], v[2]))
    else None
  }

  function Encode(m: Msg): string { Print(Spread(Kinds(TypeOf(m))), Fields(m)) }

  function Decode(data: string): Option<Msg> {
    if data == [] || Kinds(data[0]) == [] then None
    else
      var r := Scan(data, Spread(Kinds(data[0])));
      if r.read != |data| then None else FromFields(data[0], r.values)
  }

  /** The fields fit their C types, unsigned and uint64_t. */
  predicate InRange(m: Msg) {
    && m.node < U32
    && (!m.LearnChosen? ==> m.ballot < U64)
    && (m.PrepareRequest? ==> m.paxosID < U64)
    && (m.PreparePreviouslyAccepted? ==> m.acceptedBallot < U64)
    && (m.PreparePreviouslyAccepted? || m.ProposeRequest? || m.LearnChosen? ==> m.owner < U32 && m.duration < U32)
    && (m.LearnChosen? ==> m.localExpire < U64)
  }

  lemma FieldsFit(m: Msg)
    requires InRange(m)
    ensures Fit(Kinds(TypeOf(m)), Fields(m)) && FromFields(TypeOf(m), Fields(m)) == Some(m)
    ensures var kinds := Kinds(TypeOf(m)); 0 < |kinds| <= 6 && kinds[0] == Char && Ascii(Fields(m)[0]) == TypeOf(m)
  {
  }

  lemma PrintsItsType(kinds: seq<Directive>, values: seq<nat>)
    requires kinds != [] && kinds[0] == Char && values != []
    ensures var s := Print(Spread(kinds), values); s != [] && s[0] == Ascii(values[0])
  {
  }

  /** Reading what was written gives back the message, for all eight types and all values of their fields; and what is
      written fits the block of 1024 bytes it is written to. */
  lemma RoundTrip(m: Msg)
    requires InRange(m)
    ensures Decode(Encode(m)) == Some(m)
    ensures |Encode(m)| <= 126
  {
    FieldsFit(m);
    PrintedIsRead(Kinds(TypeOf(m)), Fields(m));
    PrintsItsType(Kinds(TypeOf(m)), Fields(m));
  }

  lemma PrintedIsRead(kinds: seq<Directive>, values: seq<nat>)
    requires Fit(kinds, values)
    ensures var f := Spread(kinds); Scan(Print(f, values), f) == Scanned(|Print(f, values)|, values)
    ensures |Print(Spread(kinds), values)| <= 21 * |kinds|
  {
    SpreadPrintable(kinds, values);
    ScanPrint(Spread(kinds), values);
  }

  /** Different messages are written differently. */
  lemma EncodeInjective(m: Msg, m': Msg)
    requires InRange(m) && InRange(m') && Encode(m) == Encode(m')
    ensures m == m'
  {
    RoundTrip(m);
    RoundTrip(m');
  }

  // ----- the text on the wire

  /** The pieces, with colons between them. */
  function Joined(pieces: seq<string>): string {
    if pieces == [] then [] else if |pieces| == 1 then pieces[0] else pieces[0] + ":" + Joined(pieces[1..])
  }

  function Pieces(kinds: seq<Directive>, values: seq<nat>): (r: seq<string>)
    requires |kinds| == |values|
    ensures |r| == |kinds|
  {
    if kinds == [] then [] else [Piece(kinds[0], values[0])] + Pieces(kinds[1..], values[1..])
  }

  lemma {:induction false} PrintJoins(kinds: seq<Directive>, values: seq<nat>)
    requires |kinds| == |values| && forall i :: 0 <= i < |kinds| ==> !kinds[i].Literal?
    ensures Print(Spread(kinds), values) == Joined(Pieces(kinds, values))
  {
    var f := Spread(kinds);
    if |kinds| == 1 {
      assert f[1..] == [] && values[1..] == [];
      assert Print(f, values) == Piece(kinds[0], values[0]) + Print(f[1..], values[1..]);
    } else if |kinds| > 1 {
      var g := Spread(kinds[1..]);
      PrintJoins(kinds[1..], values[1..]);
      assert f[1..] == [COLON] + g && f[1..][1..] == g;
      assert Print(f[1..], values[1..]) == [':'] + Print(g, values[1..]);
      assert Print(f, values) == Piece(kinds[0], values[0]) + Print(f[1..], values[1..]);
      assert Pieces(kinds, values)[1..] == Pieces(kinds[1..], values[1..]);
    }
  }

  /** The text of each type, its fields in the order of PL/PLeaseMsg.cpp:166-217. */
  function Text(m: Msg): string {
    match m
    case PrepareRequest(node, ballot, id) => Joined(["1", Decimal(node), Decimal(ballot), Decimal(id)])
    case PrepareRejected(node, ballot) => Joined(["2", Decimal(node), Decimal(ballot)])
    case PreparePreviouslyAccepted(node, ballot, accepted, owner, duration) =>
      Joined(["3", Decimal(node), Decimal(ballot), Decimal(accepted), Decimal(owner), Decimal(duration)])
    case PrepareCurrentlyOpen(node, ballot) => Joined(["4", Decimal(node), Decimal(ballot)])
    case ProposeRequest(node, ballot, owner, duration) =>
      Joined(["5", Decimal(node), Decimal(ballot), Decimal(owner), Decimal(duration)])
    case ProposeRejected(node, ballot) => Joined(["6", Decimal(node), Decimal(ballot)])
    case ProposeAccepted(node, ballot) => Joined(["7", Decimal(node), Decimal(ballot)])
    case LearnChosen(node, owner, duration, local) =>
      Joined(["8", Decimal(node), Decimal(owner), Decimal(duration), Decimal(local)])
  }

  lemma PiecesOfThree(k: seq<Directive>, v: seq<nat>)
    requires |k| == |v| == 3
    ensures Pieces(k, v) == [Piece(k[0], v[0]), Piece(k[1], v[1]), Piece(k[2], v[2])]
  {
    assert k[1..][1..][1..] == [] && v[1..][1..][1..] == [];
    assert Pieces(k[1..][1..], v[1..][1..]) == [Piece(k[2], v[2])];
  }

  lemma PiecesOfMore(k: seq<Directive>, v: seq<nat>)
    requires |k| == |v| && 4 <= |k| <= 6
    ensures |k| == 4 ==> Pieces(k, v) == [Piece(k[0], v[0]), Piece(k[1], v[1]), Piece(k[2], v[2]), Piece(k[3], v[3])]
    ensures |k| == 5 ==>
      Pieces(k, v) == [Piece(k[0], v[0]), Piece(k[1], v[1]), Piece(k[2], v[2]), Piece(k[3], v[3]), Piece(k[4], v[4])]
    ensures |k| == 6 ==>
      Pieces(k, v) == [Piece(k[0], v[0]), Piece(k[1], v[1]), Piece(k[2], v[2]), Piece(k[3], v[3]), Piece(k[4], v[4]), Piece(k[5], v[5])]
  {
    if |k| == 4 { PiecesOfThree(k[1..], v[1..]); } else { PiecesOfMore(k[1..], v[1..]); }
  }

  /** What is written is the type's character and the decimals of the named fields, joined by colons. */
  lemma EncodeIsText(m: Msg)
    ensures Encode(m) == Text(m)
  {
    var k, v := Kinds(TypeOf(m)), Fields(m);
    PrintJoins(k, v);
    if |k| == 3 { PiecesOfThree(k, v); } else { PiecesOfMore(k, v); }
  }

  /** Reading such a text gives the message back. */
  lemma TextIsRead(m: Msg)
    requires InRange(m)
    ensures Decode(Text(m)) == Some(m) && Text(m) != [] && Kinds(Text(m)[0]) != []
  {
    EncodeIsText(m);
    RoundTrip(m);
  }

  // ----- the scanner and the message object

  /** Wrapping at each step is wrapping once. */
  lemma WrapsAlong(v: nat, d: nat)
    ensures (v % U64 * 10 + d) % U64 == (v * 10 + d) % U64
  {
    var q, r := v / U64, v % U64;
    assert v == q * U64 + r;
    SameRest(r * 10 + d, q * 10, U64);
  }

  method Strntouint64(buffer: string) returns (n: nat, nread: nat)
    ensures nread == DigitCount(buffer) && n == ValueOf(buffer[..nread]) % U64
  {
    n, nread := 0, 0;
    assert buffer[..0] == [];
    while nread < |buffer| && IsDigit(buffer[nread])
      invariant nread <= |buffer| && forall i :: 0 <= i < nread ==> IsDigit(buffer[i])
      invariant n == ValueOf(buffer[..nread]) % U64
    {
      assert buffer[..nread + 1][..nread] == buffer[..nread];
      WrapsAlong(ValueOf(buffer[..nread]), Digit(buffer[nread]));
      n := (n * 10 + Digit(buffer[nread])) % U64;
      nread := nread + 1;
    }
    DigitCountIs(buffer, nread);
  }

  /** One round of the loop of vsnreadf. */
  method ReadOne(buffer: string, d: Directive) returns (n: int, more: seq<nat>)
    ensures Scanned(n, more) == First(buffer, d)
  {
    n, more := -1, [];
    match d {
      case Char =>
        if |buffer| >= 1 {
          n, more := 1, [buffer[0] as nat];
        }
      case Literal(c) =>
        if |buffer| >= 1 && buffer[0] == c {
          n := 1;
        }
      case _ =>
        var v, digits := Strntouint64(buffer);
        more := [v % Width(d)];
        if digits >= 1 {
          n := digits;
        }
    }
  }

  lemma ThenAssociates(r: Scanned, s: Scanned, t: Scanned)
    requires r.read >= 0 && s.read >= 0
    ensures Then(r, Then(s, t)) == Then(Then(r, s), t)
    ensures s.values == [] && s.read == 0 ==> Then(r, s) == r
  {
  }

  method Snreadf(data: string, format: seq<Directive>) returns (read: int, values: seq<nat>)
    ensures Scanned(read, values) == Scan(data, format)
  {
    var buffer, f := data, format;
    read, values := 0, [];
    assert Then(Scanned(0, []), Scan(data, format)) == Scan(data, format);
    while f != []
      invariant 0 <= read && Scan(data, format) == Then(Scanned(read, values), Scan(buffer, f))
      decreases |f|
    {
      var n, more := ReadOne(buffer, f[0]);
      if n < 0 {
        return -1, values + more;
      }
      ThenAssociates(Scanned(read, values), Scanned(n, more), Scan(buffer[n..], f[1..]));
      values := values + more;
      buffer, f, read := buffer[n..], f[1..], read + n;
    }
    ThenAssociates(Scanned(read, values), Scanned(0, []), Scan(buffer, f));
  }

  /** A number directive that finds no digit after a format that matched stores 0 and ends the scan. */
  lemma {:induction false} FailedNumberIsZero(s: string, f: seq<Directive>, d: Directive, rest: seq<Directive>)
    requires IsNumber(d) && Scan(s, f).read >= 0 && DigitCount(s[Scan(s, f).read..]) == 0
    ensures Scan(s, f + [d] + rest) == Scanned(-1, Scan(s, f).values + [0])
    decreases |f|
  {
    var g := f + [d] + rest;
    if f == [] {
      assert g[0] == d && s[0..] == s;
    } else {
      var r := First(s, f[0]);
      assert g[0] == f[0] && g[1..] == f[1..] + [d] + rest;
      assert s[r.read..][Scan(s[r.read..], f[1..]).read..] == s[Scan(s, f).read..];
      FailedNumberIsZero(s[r.read..], f[1..], d, rest);
    }
  }

  // ----- the fields of a message object

  datatype Record = Record(typ: char, node: nat, proposal: nat, accepted: nat, owner: nat, duration: nat, local: nat, paxos: nat)
  {
    function Value(): Option<Msg> {
      match typ
      case '1' => Some(PrepareRequest(node, proposal, paxos))
      case '2' => Some(PrepareRejected(node, proposal))
      case '3' => Some(PreparePreviouslyAccepted(node, proposal, accepted, owner, duration))
      case '4' => Some(PrepareCurrentlyOpen(node, proposal))
      case '5' => Some(ProposeRequest(node, proposal, owner, duration))
      case '6' => Some(ProposeRejected(node, proposal))
      case '7' => Some(ProposeAccepted(node, proposal))
      case '8' => Some(LearnChosen(node, owner, duration, local))
      case _ => None
    }

    function Put(s: Slot, v: nat): Record {
      match s
      case TypeSlot => this.(typ := Ascii(v))
      case NodeSlot => this.(node := v)
      case ProposalSlot => this.(proposal := v)
      case AcceptedSlot => this.(accepted := v)
      case OwnerSlot => this.(owner := v)
      case DurationSlot => this.(duration := v)
      case LocalSlot => this.(local := v)
      case PaxosSlot => this.(paxos := v)
    }
  }

  /** The record holds each field of m under its own name. */
  predicate Carries(r: Record, m: Msg) {
    && r.node == m.node && (m.LearnChosen? || r.proposal == m.ballot)
    && match m
       case PrepareRequest(_, _, id) => r.typ == '1' && r.paxos == id
       case PrepareRejected(_, _) => r.typ == '2'
       case PreparePreviouslyAccepted(_, _, accepted, owner, d) =>
         r.typ == '3' && r.accepted == accepted && r.owner == owner && r.duration == d
       case PrepareCurrentlyOpen(_, _) => r.typ == '4'
       case ProposeRequest(_, _, owner, d) => r.typ == '5' && r.owner == owner && r.duration == d
       case ProposeRejected(_, _) => r.typ == '6'
       case ProposeAccepted(_, _) => r.typ == '7'
       case LearnChosen(_, owner, d, local) => r.typ == '8' && r.owner == owner && r.duration == d && r.local == local
  }

  lemma CarriesIsValue(r: Record, m: Msg)
    ensures r.Value() == Some(m) <==> Carries(r, m)
  {
  }

  /** Where a scanned value goes. */
  datatype Slot = TypeSlot | NodeSlot | ProposalSlot | AcceptedSlot | OwnerSlot | DurationSlot | LocalSlot | PaxosSlot

  function Slots(t: char): seq<Slot> {
    if t == '1' then [TypeSlot, NodeSlot, ProposalSlot, PaxosSlot]
    else if t == '3' then [TypeSlot, NodeSlot, ProposalSlot, AcceptedSlot, OwnerSlot, DurationSlot]
    else if t == '5' then [TypeSlot, NodeSlot, ProposalSlot, OwnerSlot, DurationSlot]
    else if t == '8' then [TypeSlot, NodeSlot, OwnerSlot, DurationSlot, LocalSlot]
    else [TypeSlot, NodeSlot, ProposalSlot]
  }

  /** The values scanned go to the slots in order, as far as they reach. */
  function Stored(r: Record, slots: seq<Slot>, values: seq<nat>): Record
    decreases |slots|
  {
    if slots == [] || values == [] then r else Stored(r.Put(slots[0], values[0]), slots[1..], values[1..])
  }

  lemma {:induction false} StoredLast(r: Record, slots: seq<Slot>, values: seq<nat>, s: Slot, v: nat)
    requires |slots| == |values|
    ensures Stored(r, slots + [s], values + [v]) == Stored(r, slots, values).Put(s, v)
    decreases |slots|
  {
    if slots == [] {
      assert Stored(r.Put(s, v), [], []) == r.Put(s, v);
    } else {
      assert (slots + [s])[1..] == slots[1..] + [s] && (values + [v])[1..] == values[1..] + [v];
      StoredLast(r.Put(slots[0], values[0]), slots[1..], values[1..], s, v);
    }
  }

  lemma StoredTwo(r: Record, a: Slot, x: nat, b: Slot, y: nat)
    ensures Stored(r, [a, b], [x, y]) == r.Put(a, x).Put(b, y)
  {
    assert Stored(r, [], []) == r;
    StoredLast(r, [], [], a, x);
    assert [] + [a] == [a] && [] + [x] == [x] && [a] + [b] == [a, b] && [x] + [y] == [x, y];
    StoredLast(r, [a], [x], b, y);
  }

  lemma StoredThree(r: Record, a: Slot, x: nat, b: Slot, y: nat, c: Slot, z: nat)
    ensures Stored(r, [a, b, c], [x, y, z]) == r.Put(a, x).Put(b, y).Put(c, z)
  {
    StoredTwo(r, a, x, b, y);
    StoredLast(r, [a, b], [x, y], c, z);
    assert [a, b] + [c] == [a, b, c] && [x, y] + [z] == [x, y, z];
  }

  lemma StoredFour(r: Record, s: seq<Slot>, v: seq<nat>)
    requires |s| == |v| == 4
    ensures Stored(r, s, v) == r.Put(s[0], v[0]).Put(s[1], v[1]).Put(s[2], v[2]).Put(s[3], v[3])
  {
    StoredThree(r, s[0], v[0], s[1], v[1], s[2], v[2]);
    StoredLast(r, [s[0], s[1], s[2]], [v[0], v[1], v[2]], s[3], v[3]);
    assert s == [s[0], s[1], s[2]] + [s[3]] && v == [v[0], v[1], v[2]] + [v[3]];
  }

  lemma StoredFive(r: Record, s: seq<Slot>, v: seq<nat>)
    requires |s| == |v| == 5
    ensures Stored(r, s, v) == r.Put(s[0], v[0]).Put(s[1], v[1]).Put(s[2], v[2]).Put(s[3], v[3]).Put(s[4], v[4])
  {
    StoredFour(r, s[..4], v[..4]);
    StoredLast(r, s[..4], v[..4], s[4], v[4]);
    assert s == s[..4] + [s[4]] && v == v[..4] + [v[4]];
  }

  /** With a value for every slot of its type, a record is the message of those values. */
  lemma StoredValue(r: Record, t: char, v: seq<nat>)
    requires Kinds(t) != [] && |v| == |Kinds(t)| && v[0] == t as nat
    ensures FromFields(t, v).Some? && Stored(r, Slots(t), v).Value() == FromFields(t, v)
  {
    if t == '1' {
      StoredFour(r, Slots(t), v);
    } else if t == '3' {
      StoredFive(r, Slots(t)[..5], v[..5]);
      StoredLast(r, Slots(t)[..5], v[..5], DurationSlot, v[5]);
      assert Slots(t) == Slots(t)[..5] + [DurationSlot] && v == v[..5] + [v[5]];
    } else if t == '5' || t == '8' {
      StoredFive(r, Slots(t), v);
    } else {
      StoredThree(r, TypeSlot, v[0], NodeSlot, v[1], ProposalSlot, v[2]);
      assert v == [v[0], v[1], v[2]];
    }
  }

  /** How many values a format stores. */
  function Stores(f: seq<Directive>): nat {
    if f == [] then 0 else Stores(f[1..]) + if f[0].Literal? then 0 else 1
  }

  lemma {:induction false} ScanCount(s: string, f: seq<Directive>)
    ensures Scan(s, f).read >= 0 ==> |Scan(s, f).values| == Stores(f)
    ensures Scan(s, f).read >= 0 && f != [] && f[0].Char? ==> s != [] && |Scan(s, f).values| > 0 && Scan(s, f).values[0] == s[0] as nat
    decreases |f|
  {
    if f != [] {
      var r := First(s, f[0]);
      if r.read >= 0 { ScanCount(s[r.read..], f[1..]); }
    }
  }

  lemma {:induction false} SpreadCount(kinds: seq<Directive>)
    requires forall i :: 0 <= i < |kinds| ==> !kinds[i].Literal?
    ensures Stores(Spread(kinds)) == |kinds|
  {
    if |kinds| == 1 {
      assert Spread(kinds)[1..] == [] && Stores([]) == 0;
    } else if |kinds| > 1 {
      SpreadCount(kinds[1..]);
      var f := Spread(kinds);
      assert f[1..][1..] == Spread(kinds[1..]) && f[1..][0] == COLON;
      assert Stores(f[1..]) == Stores(f[1..][1..]);
    }
  }

  /** A message object: all the fields any type may carry. */
  class PLeaseMsg {
    var typ: char
    var nodeID: nat
    var proposalID: nat
    var acceptedProposalID: nat
    var leaseOwner: nat
    var duration: nat
    var localExpireTime: nat
    var paxosID: nat

    function State(): Record
      reads this
    {
      Record(typ, nodeID, proposalID, acceptedProposalID, leaseOwner, duration, localExpireTime, paxosID)
    }

    /** The message the type makes of the fields. */
    function Value(): Option<Msg>
      reads this
    {
      State().Value()
    }

    /** The setters: the fields of the type are set, the others keep what they had. */
    method Set(m: Msg)
      modifies this
      ensures Value() == Some(m) && Carries(State(), m)
      ensures m.LearnChosen? ==> proposalID == old(proposalID)
      ensures m.PrepareRequest? || paxosID == old(paxosID)
      ensures m.LearnChosen? || localExpireTime == old(localExpireTime)
      ensures m.PreparePreviouslyAccepted? || acceptedProposalID == old(acceptedProposalID)
      ensures m.PreparePreviouslyAccepted? || m.ProposeRequest? || m.LearnChosen? ||
              (leaseOwner == old(leaseOwner) && duration == old(duration))
    {
      typ, nodeID := TypeOf(m), m.node;
      if !m.LearnChosen? { proposalID := m.ballot; }
      match m {
        case PrepareRequest(_, _, id) => paxosID := id;
        case PreparePreviouslyAccepted(_, _, accepted, owner, d) => acceptedProposalID, leaseOwner, duration := accepted, owner, d;
        case ProposeRequest(_, _, owner, d) => leaseOwner, duration := owner, d;
        case LearnChosen(_, owner, d, local) => leaseOwner, duration, localExpireTime := owner, d, local;
        case _ =>
      }
    }

    method Write() returns (data: string)
      ensures forall m :: Carries(State(), m) ==> data == Text(m)
      ensures Value().Some? ==> data == Encode(Value().value)
      ensures Value().None? ==> data == []
    {
      forall m | Carries(State(), m) ensures Value() == Some(m) && Encode(m) == Text(m) {
        CarriesIsValue(State(), m);
        EncodeIsText(m);
      }
      match typ {
        case '1' => data := Print(Spread(Kinds(typ)), [typ as nat, nodeID, proposalID, paxosID]);
        case '3' =>
          data := Print(Spread(Kinds(typ)), [typ as nat, nodeID, proposalID, acceptedProposalID, leaseOwner, duration]);
        case '5' => data := Print(Spread(Kinds(typ)), [typ as nat, nodeID, proposalID, leaseOwner, duration]);
        case '8' => data := Print(Spread(Kinds(typ)), [typ as nat, nodeID, leaseOwner, duration, localExpireTime]);
        case _ =>
          if Value().None? { return []; }
          data := Print(Spread(Kinds(typ)), [typ as nat, nodeID, proposalID]);
      }
    }

    /** Reading stores each field as it is scanned; the fields scanned before a failure stay changed. */
    method Read(data: string) returns (ok: bool)
      modifies this
      ensures ok <==> Decode(data).Some?
      ensures ok ==> Value() == Decode(data)
      ensures forall m :: InRange(m) && data == Text(m) ==> ok && Carries(State(), m)
      ensures State() == if data == [] || Kinds(data[0]) == [] then old(State())
                         else Stored(old(State()), Slots(data[0]), Scan(data, Spread(Kinds(data[0]))).values)
    {
      forall m | InRange(m) && data == Text(m) ensures Decode(data) == Some(m) && data != [] && Kinds(data[0]) != [] { TextIsRead(m); }
      if |data| < 1 || Kinds(data[0]) == [] {
        return false;
      }
      var read, values := Snreadf(data, Spread(Kinds(data[0])));
      Store(Slots(data[0]), values);
      ok := read == |data|;
      if ok { ReadComplete(data, values, old(State())); }
      forall m | InRange(m) && data == Text(m) ensures ok ==> Carries(State(), m) { CarriesIsValue(State(), m); }
    }

    method Store(slots: seq<Slot>, values: seq<nat>)
      modifies this
      ensures State() == Stored(old(State()), slots, values)
    {
      var s, v := slots, values;
      while s != [] && v != []
        invariant Stored(State(), s, v) == Stored(old(State()), slots, values)
        decreases |s|
      {
        match s[0] {
          case TypeSlot => typ := Ascii(v[0]);
          case NodeSlot => nodeID := v[0];
          case ProposalSlot => proposalID := v[0];
          case AcceptedSlot => acceptedProposalID := v[0];
          case OwnerSlot => leaseOwner := v[0];
          case DurationSlot => duration := v[0];
          case LocalSlot => localExpireTime := v[0];
          case PaxosSlot => paxosID := v[0];
        }
        s, v := s[1..], v[1..];
      }
    }
  }

  /** After a scan that consumed the whole text, the stored fields are the message. */
  lemma ReadComplete(data: string, values: seq<nat>, r: Record)
    requires data != [] && Kinds(data[0]) != []
    requires Scan(data, Spread(Kinds(data[0]))) == Scanned(|data|, values)
    ensures FromFields(data[0], values).Some? && Stored(r, Slots(data[0]), values).Value() == FromFields(data[0], values)
  {
    var kinds := Kinds(data[0]);
    SpreadCount(kinds);
    ScanCount(data, Spread(kinds));
    assert Spread(kinds)[0] == Char;
    StoredValue(r, data[0], values);
  }
}
