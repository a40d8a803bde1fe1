/** FixedBuffer and the integer formatting that writes straight into it. */
module LogStreams {
  import opened Numerals
  import opened Options

  // ---------------------------------------------------------------- C++ arithmetic

  /** Division and remainder truncate towards zero (section 5.6 of ISO C++11). */
  function Quotient(a: int, b: nat): int
    requires b > 0
  {
    if a < 0 then -(-a / b) else a / b
  }

  function Remainder(a: int, b: nat): int
    requires b > 0
  {
    a - b * Quotient(a, b)
  }

  function Abs(a: int): nat {
    if a < 0 then -a else a
  }

  lemma TruncatesTowardsZero(a: int)
    ensures Abs(Quotient(a, 10)) == Abs(a) / 10 && Abs(Remainder(a, 10)) == Abs(a) % 10
    ensures Remainder(a, 10) != 0 ==> (Remainder(a, 10) < 0 <==> a < 0)
    ensures -9 <= Remainder(a, 10) <= 9
    ensures (a <= Quotient(a, 10) <= 0 || 0 <= Quotient(a, 10) <= a) && (Quotient(a, 10) == 0 <==> Abs(a) / 10 == 0)
  {
  }

  /** The table is mirrored, so a negative remainder finds its digit too. */
  const DIGITS := "9876543210123456789"
  const ZERO := 9

  function MirrorDigit(d: int): char
    requires -9 <= d <= 9
  {
    DIGITS[ZERO + d]
  }

  lemma MirroredTable(d: int)
    requires -9 <= d <= 9
    ensures MirrorDigit(d) == HexDigit(Abs(d))
  {
  }

  // ---------------------------------------------------------------- reversal

  function Reverse(s: string): (r: string)
    ensures |r| == |s|
    ensures forall i :: 0 <= i < |s| ==> r[i] == s[|s| - 1 - i]
  {
    if s == [] then [] else Reverse(s[1..]) + [s[0]]
  }

  lemma ReverseAppend(s: string, c: char)
    ensures Reverse(s + [c]) == [c] + Reverse(s)
  {
  }

  /** std::reverse on a range. */
  method ReverseRange(a: array<char>, lo: nat, hi: nat)
    requires lo <= hi <= a.Length
    modifies a
    ensures a[lo..hi] == Reverse(old(a[lo..hi]))
    ensures a[..lo] == old(a[..lo]) && a[hi..] == old(a[hi..])
  {
    var i, j := lo, hi;
    while i + 1 < j
      invariant lo <= i <= j <= hi && i - lo == hi - j
      invariant forall k :: 0 <= k < a.Length && (k < lo || hi <= k || i <= k < j) ==> a[k] == old(a[k])
      invariant forall k :: lo <= k < i || j <= k < hi ==> a[k] == old(a[lo + hi - 1 - k])
      decreases j - i
    {
      j := j - 1;
      a[i], a[j] := a[j], a[i];
      i := i + 1;
    }
    ghost var r := Reverse(old(a[lo..hi]));
    forall k | 0 <= k < hi - lo ensures a[lo..hi][k] == r[k] {}
    forall k | 0 <= k < lo ensures a[..lo][k] == old(a[..lo])[k] {}
    forall k | 0 <= k < a.Length - hi ensures a[hi..][k] == old(a[hi..])[k] {}
  }

  // ---------------------------------------------------------------- convert

  /** One more digit, least significant first, in front of what was produced. */
  lemma NextDigit(n: nat, base: nat, produced: string)
    requires 2 <= base <= 16
    ensures Digits(n, base) + Reverse(produced)
         == (if n >= base then Digits(n / base, base) else "") + Reverse(produced + [HexDigit(n % base)])
  {
    hide HexDigit;
    ReverseAppend(produced, HexDigit(n % base));
    if n < base {
      assert n % base == n;
    }
  }

  /** `*p++ = c`, with what was produced since `at`. */
  method Put(buf: array<char>, at: nat, p: nat, c: char)
    requires at <= p < buf.Length
    modifies buf
    ensures buf[at..p + 1] == old(buf[at..p]) + [c] && buf[..at] == old(buf[..at])
  {
    buf[p] := c;
  }

  /** The end of both conversions: terminate, then turn the digits round. */
  method Finish(buf: array<char>, at: nat, p: nat)
    requires at <= p < buf.Length
    modifies buf
    ensures buf[at..p] == Reverse(old(buf[at..p])) && buf[p] == '\0' && buf[..at] == old(buf[..at])
  {
    hide Reverse;
    buf[p] := '\0';
    assert buf[at..p] == old(buf[at..p]);
    ReverseRange(buf, at, p);
    assert buf[p..][0] == '\0';
  }

  /** One round of the digit loop, on magnitudes. */
  lemma DigitRound(n: nat, base: nat, produced: string, c: char)
    requires (base == 10 || base == 16) && c == HexDigit(n % base)
    ensures Digits(n, base) + Reverse(produced)
         == (if n / base != 0 then Digits(n / base, base) else "") + Reverse(produced + [c])
    ensures |Digits(n, base)| == 1 + if n / base != 0 then |Digits(n / base, base)| else 0
    ensures n > 0 ==> n / base < n
  {
    hide HexDigit;
    assert n / base != 0 <==> n >= base by {
      if base == 10 {
        assert n / 10 != 0 <==> n >= 10;
      } else {
        assert n / 16 != 0 <==> n >= 16;
      }
    }
    assert n > 0 ==> n / base < n by {
      if base == 10 {
        assert n > 0 ==> n / 10 < n;
      } else {
        assert n > 0 ==> n / 16 < n;
      }
    }
    hide Reverse;
    NextDigit(n, base, produced);
  }

  /** The digit loop of convert, a do-while.  No value it computes leaves the range
      between 0 and `value`, so the least value of a type is no exception. */
  method PutDigits(buf: array<char>, at: nat, value: int) returns (p: nat)
    requires at + |Digits(Abs(value), 10)| <= buf.Length
    modifies buf
    ensures p == at + |Digits(Abs(value), 10)|
    ensures Reverse(buf[at..p]) == Digits(Abs(value), 10) && buf[..at] == old(buf[..at])
  {
    hide Digits, Reverse, Quotient, Remainder, MirrorDigit, HexDigit, Abs;
    var i := value;
    p := at;
    assert Reverse(buf[at..p]) == "";
    var more := true;
    while more
      invariant at <= p && (0 <= i <= value || value <= i <= 0)
      invariant p + (if more then |Digits(Abs(i), 10)| else 0) == at + |Digits(Abs(value), 10)|
      invariant Digits(Abs(value), 10) == (if more then Digits(Abs(i), 10) else "") + Reverse(buf[at..p])
      invariant buf[..at] == old(buf[..at])
      decreases more, Abs(i)
    {
      TruncatesTowardsZero(i);
      var lsd := Remainder(i, 10);
      MirroredTable(lsd);
      DigitRound(Abs(i), 10, buf[at..p], MirrorDigit(lsd));
      ZeroAbs(i);
      i := Quotient(i, 10);
      Put(buf, at, p, MirrorDigit(lsd));
      p := p + 1;
      more := i != 0;
    }
  }

  lemma ZeroAbs(i: int)
    ensures Abs(i) == 0 <==> i == 0
  {
  }

  lemma FormatParts(value: int)
    ensures Format(value) == (if value < 0 then "-" else "") + Digits(Abs(value), 10)
  {
  }

  /** Writes the text of `value` and a NUL at `at`. */
  method Convert(buf: array<char>, at: nat, value: int) returns (len: nat)
    requires at + |Format(value)| < buf.Length
    modifies buf
    ensures len == |Format(value)| && buf[at..at + len] == Format(value) && buf[at + len] == '\0'
    ensures buf[..at] == old(buf[..at])
  {
    FormatParts(value);
    hide Digits, Reverse, Format, Abs;
    var p := PutDigits(buf, at, value);
    if value < 0 {
      ReverseAppend(buf[at..p], '-');
      Put(buf, at, p, '-');
      p := p + 1;
    }
    Finish(buf, at, p);
    len := p - at;
  }

  method ConvertHex(buf: array<char>, at: nat, value: nat) returns (len: nat)
    requires at + |Digits(value, 16)| < buf.Length
    modifies buf
    ensures len == |Digits(value, 16)| && buf[at..at + len] == Digits(value, 16) && buf[at + len] == '\0'
    ensures buf[..at] == old(buf[..at])
  {
    hide Digits, Reverse, HexDigit;
    var i: nat := value;
    var p := at;
    assert Reverse(buf[at..p]) == "";
    var more := true;
    while more
      invariant at <= p && i <= value
      invariant p + (if more then |Digits(i, 16)| else 0) == at + |Digits(value, 16)|
      invariant Digits(value, 16) == (if more then Digits(i, 16) else "") + Reverse(buf[at..p])
      invariant buf[..at] == old(buf[..at])
      decreases more, i
    {
      var lsd := i % 16;
      DigitRound(i, 16, buf[at..p], HexDigit(lsd));
      i := i / 16;
      Put(buf, at, p, HexDigit(lsd));
      p := p + 1;
      more := i != 0;
    }
    assert Reverse(buf[at..p]) == Digits(value, 16);
    Finish(buf, at, p);
    len := p - at;
  }

  // ---------------------------------------------------------------- FixedBuffer

  const SMALL_BUFFER := 4000
  const MAX_NUMERIC_SIZE := 32

  class FixedBuffer {
    const data: array<char>
    var cur: nat

    ghost predicate Valid()
      reads this
    {
      cur < data.Length
    }

    /** asString. */
    function Contents(): string
      requires Valid()
      reads this, data
    {
      data[..cur]
    }

    function Avail(): (room: int)
      requires Valid()
      reads this
      ensures room > 0
    {
      data.Length - cur
    }

    lemma LengthIsUsed()
      requires Valid()
      ensures |Contents()| + Avail() == data.Length
    {
    }

    constructor (size: nat)
      requires size > 0
      ensures Valid() && fresh(data) && Contents() == "" && Avail() == size
    {
      data := new char[size];
      cur := 0;
    }

    /** Copies all of `text` or, when it would leave no free byte, nothing. */
    method Append(text: string)
      requires Valid()
      modifies this, data
      ensures Valid()
      ensures Contents() == old(Contents()) + (if old(Avail()) > |text| then text else "")
    {
      if Avail() > |text| {
        forall i | 0 <= i < |text| {
          data[cur + i] := text[i];
        }
        assert data[..cur] == old(Contents());
        assert data[cur..cur + |text|] == text;
        cur := cur + |text|;
      }
    }

    /** For text that was written at current(). */
    method Add(len: nat)
      requires Valid() && len < Avail()
      modifies this`cur
      ensures Valid() && cur == old(cur) + len
    {
      cur := cur + len;
    }

    method Reset()
      requires Valid()
      modifies this`cur
      ensures Valid() && Contents() == ""
    {
      cur := 0;
    }
  }

  // ---------------------------------------------------------------- LogStream

  /** What is shifted into a LogStream. */
  datatype Piece =
    | Flag(b: bool)
    | Letter(c: char)
    | Text(s: string)
    | Integer(v: int)
    | Pointer(p: nat)

  predicate Representable(piece: Piece) {
    match piece
    case Integer(v) => InRange(v)
    case Pointer(p) => InRange(p)
    case _ => true
  }

  function TextOf(piece: Piece): string {
    match piece
    case Flag(b) => if b then "1" else "0"
    case Letter(c) => [c]
    case Text(s) => s
    case Integer(v) => Format(v)
    case Pointer(p) => "0x" + Digits(p, 16)
  }

  /** Numbers are dropped unless the longest of them would fit. */
  predicate Accepted(room: int, piece: Piece) {
    if piece.Integer? || piece.Pointer? then room >= MAX_NUMERIC_SIZE else room > |TextOf(piece)|
  }

  lemma AcceptedFits(room: int, piece: Piece)
    requires Representable(piece) && Accepted(room, piece)
    ensures |TextOf(piece)| < room
  {
    match piece
    case Integer(v) => NumeralsFit(v);
    case Pointer(p) => NumeralsFit(p);
    case _ =>
  }

  /** How each operand is spelled. */
  lemma TextsSpelled(c: char, s: string, v: int, p: nat)
    ensures TextOf(Flag(true)) == "1" && TextOf(Flag(false)) == "0" && TextOf(Letter(c)) == [c] && TextOf(Text(s)) == s
    ensures Parse(TextOf(Integer(v))) == Some(v)
    ensures var t := TextOf(Pointer(p));
            |t| > 2 && t[..2] == "0x" && AreDigits(t[2..], 16) && Value(t[2..], 16) == p
  {
    FormatParses(v);
    DigitsParse(p, 16);
    assert TextOf(Pointer(p))[2..] == Digits(p, 16);
  }

  /** What a stream with so much room keeps of some pieces: each whole or not at all. */
  function Kept(room: int, pieces: seq<Piece>): string {
    if pieces == [] then ""
    else
      var text := if Accepted(room, pieces[0]) then TextOf(pieces[0]) else "";
      text + Kept(room - |text|, pieces[1..])
  }

  /** One operand is kept exactly when a byte would stay free, a number exactly when 32 bytes
      are free beforehand. */
  lemma KeptIff(room: int, piece: Piece)
    requires room > 0
    ensures Kept(room, [piece]) ==
            if (match piece
                case Flag(_) => room > 1
                case Letter(_) => room > 1
                case Text(s) => room > |s|
                case Integer(_) => room >= 32
                case Pointer(_) => room >= 32)
            then TextOf(piece) else ""
  {
    hide Format, Digits;
    assert [piece][1..] == [];
    assert TextOf(piece) + "" == TextOf(piece);
  }

  function All(pieces: seq<Piece>): string {
    if pieces == [] then "" else TextOf(pieces[0]) + All(pieces[1..])
  }

  /** Never an overrun: one byte stays free however much is logged. */
  lemma {:induction false} KeptFits(room: int, pieces: seq<Piece>)
    requires room > 0 && forall piece :: piece in pieces ==> Representable(piece)
    ensures |Kept(room, pieces)| < room
  {
    if pieces != [] {
      assert pieces[0] in pieces;
      if Accepted(room, pieces[0]) {
        AcceptedFits(room, pieces[0]);
      }
      var text := if Accepted(room, pieces[0]) then TextOf(pieces[0]) else "";
      KeptFits(room - |text|, pieces[1..]);
    }
  }

  /** Nothing is dropped while a numeral's worth of room is left over. */
  lemma {:induction false} KeptAll(room: int, pieces: seq<Piece>)
    requires |All(pieces)| + MAX_NUMERIC_SIZE <= room
    ensures Kept(room, pieces) == All(pieces)
  {
    if pieces != [] {
      KeptAll(room - |TextOf(pieces[0])|, pieces[1..]);
    }
  }

  method PutPrefix(buf: array<char>, at: nat)
    requires at + 2 <= buf.Length
    modifies buf
    ensures buf[..at + 2] == old(buf[..at]) + "0x"
  {
    buf[at] := '0';
    buf[at + 1] := 'x';
  }

  lemma SliceJoins(s: string, i: nat, j: nat)
    requires i <= j <= |s|
    ensures s[..j] == s[..i] + s[i..j]
  {
  }

  class LogStream {
    const buffer: FixedBuffer

    ghost predicate Valid()
      reads this, buffer
    {
      buffer.Valid()
    }

    constructor ()
      ensures Valid() && fresh(buffer) && fresh(buffer.data)
      ensures buffer.Contents() == "" && buffer.Avail() == SMALL_BUFFER
    {
      buffer := new FixedBuffer(SMALL_BUFFER);
    }

    method FormatInteger(v: int)
      requires Valid() && InRange(v)
      modifies buffer, buffer.data
      ensures Valid()
      ensures buffer.Contents() == old(buffer.Contents()) + (if old(buffer.Avail()) >= MAX_NUMERIC_SIZE then Format(v) else "")
    {
      hide Format, Digits, InRange;
      if buffer.Avail() >= MAX_NUMERIC_SIZE {
        NumeralsFit(v);
        var at := buffer.cur;
        var len := Convert(buffer.data, at, v);
        SliceJoins(buffer.data[..], at, at + len);
        buffer.Add(len);
      }
    }

    method FormatPointer(p: nat)
      requires Valid() && InRange(p)
      modifies buffer, buffer.data
      ensures Valid()
      ensures buffer.Contents()
           == old(buffer.Contents()) + (if old(buffer.Avail()) >= MAX_NUMERIC_SIZE then "0x" + Digits(p, 16) else "")
    {
      hide Digits, InRange;
      if buffer.Avail() >= MAX_NUMERIC_SIZE {
        NumeralsFit(p);
        var at := buffer.cur;
        PutPrefix(buffer.data, at);
        var len := ConvertHex(buffer.data, at + 2, p);
        SliceJoins(buffer.data[..], at + 2, at + 2 + len);
        buffer.Add(len + 2);
      }
    }

    /** operator<<, for each kind of operand. */
    method Shift(piece: Piece)
      requires Valid() && Representable(piece)
      modifies buffer, buffer.data
      ensures Valid()
      ensures buffer.Contents() == old(buffer.Contents()) + (if Accepted(old(buffer.Avail()), piece) then TextOf(piece) else "")
    {
      match piece {
        case Flag(b) => buffer.Append(if b then "1" else "0");
        case Letter(c) => buffer.Append([c]);
        case Text(s) => buffer.Append(s);
        case Integer(v) => FormatInteger(v);
        case Pointer(p) => FormatPointer(p);
      }
    }

    /** A whole statement's worth of operands. */
    method ShiftAll(pieces: seq<Piece>)
      requires Valid() && forall piece :: piece in pieces ==> Representable(piece)
      modifies buffer, buffer.data
      ensures Valid()
      ensures buffer.Contents() == old(buffer.Contents()) + Kept(old(buffer.Avail()), pieces)
    {
      hide Accepted, TextOf;
      ghost var before, room := buffer.Contents(), buffer.Avail();
      var i := 0;
      assert pieces[0..] == pieces;
      while i < |pieces|
        invariant i <= |pieces| && Valid()
        invariant buffer.Contents() + Kept(buffer.Avail(), pieces[i..]) == before + Kept(room, pieces)
      {
        ghost var here, left := buffer.Contents(), buffer.Avail();
        ghost var text := if Accepted(left, pieces[i]) then TextOf(pieces[i]) else "";
        assert pieces[i..][0] == pieces[i] && pieces[i..][1..] == pieces[i + 1..];
        assert Kept(left, pieces[i..]) == text + Kept(left - |text|, pieces[i + 1..]);
        buffer.LengthIsUsed();
        Shift(pieces[i]);
        buffer.LengthIsUsed();
        assert here + (text + Kept(left - |text|, pieces[i + 1..])) == (here + text) + Kept(left - |text|, pieces[i + 1..]);
        i := i + 1;
      }
    }
  }
}
