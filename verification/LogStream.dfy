/** Number formatting and the fixed buffer of `mytinyhttpd/base/log_stream.cc` and
    `mytinyhttpd/base/log_stream.h`. */
module LogStreams {
  import Date   // for C's division
  import opened Numerals

  // ---------------------------------------------------------------- conversion in place

  const DECIMAL_DIGITS := "9876543210123456789"   // indexed from its middle

  function Reversed(s: string): (r: string)
    ensures |r| == |s|
  {
    if s == "" then "" else [s[|s| - 1]] + Reversed(s[..|s| - 1])
  }

  lemma ReversedSnoc(s: string, c: char)
    ensures Reversed(s + [c]) == [c] + Reversed(s)
  {
    assert (s + [c])[..|s|] == s;
  }

  lemma {:induction false} ReversedIs(s: string, t: string)
    requires |t| == |s| && forall i :: 0 <= i < |s| ==> t[i] == s[|s| - 1 - i]
    ensures t == Reversed(s)
  {
    if s != "" {
      var pre := s[..|s| - 1];
      assert forall i :: 0 <= i < |pre| ==> t[1..][i] == pre[|pre| - 1 - i];
      ReversedIs(pre, t[1..]);
      assert t == [t[0]] + t[1..];
    }
  }

  /** Two contents of an array differ from `lo` to `hi` at most. */
  ghost predicate SameOutside(s: string, t: string, lo: int, hi: int) {
    |s| == |t| && forall j :: 0 <= j < |s| && !(lo <= j < hi) ==> s[j] == t[j]
  }

  lemma SameOutsideTrans(s: string, t: string, u: string, lo: int, hi: int, hi': int)
    requires SameOutside(s, t, lo, hi) && SameOutside(t, u, lo, hi') && hi <= hi'
    ensures SameOutside(s, u, lo, hi')
  {
  }

  /** `std::reverse` on a part of an array. */
  method ReverseRange(buf: array<char>, lo: nat, hi: nat)
    requires lo <= hi <= buf.Length
    modifies buf
    ensures buf[lo..hi] == Reversed(old(buf[lo..hi]))
    ensures SameOutside(old(buf[..]), buf[..], lo, hi)
  {
    hide Reversed;
    ghost var before := buf[lo..hi];
    var i, j := lo, hi;
    while i < j
      invariant lo <= i <= hi && lo <= j <= hi && i + j == lo + hi && i <= j + 1
      invariant forall k :: lo <= k < i ==> buf[k] == before[hi - 1 - k]
      invariant forall k :: j <= k < hi ==> buf[k] == before[hi - 1 - k]
      invariant forall k :: i <= k < j ==> buf[k] == before[k - lo]
      invariant forall k :: 0 <= k < buf.Length && !(lo <= k < hi) ==> buf[k] == old(buf[k])
    {
      j := j - 1;
      buf[i], buf[j] := buf[j], buf[i];
      i := i + 1;
    }
    ghost var after := buf[lo..hi];
    forall k | 0 <= k < |before|
      ensures after[k] == before[|before| - 1 - k]
    {
      assert after[k] == buf[lo + k];
    }
    ReversedIs(before, after);
  }

  lemma LastDigit(i: int)
    ensures var q, lsd := Date.Quot(i, 10), Date.Rem(i, 10);
            && -9 <= lsd <= 9
            && (q != 0 ==> Abs(q) < Abs(i))
            && Numeral(Abs(i), 10) == (if q == 0 then "" else Numeral(Abs(q), 10)) + [DECIMAL_DIGITS[9 + lsd]]
  {
    var q, lsd, n := Date.Quot(i, 10), Date.Rem(i, 10), Abs(i);
    assert Abs(q) == n / 10 && Abs(lsd) == n % 10;
    MirroredDigits(lsd);
    hide DigitOf;
    if n < 10 {
      assert Numeral(n, 10) == [DigitOf(n)];
    } else {
      NumeralUnfolds(n, 10);
    }
  }

  /** The table is read on both sides of its zero: remainders of negative values are negative. */
  lemma MirroredDigits(d: int)
    requires -9 <= d <= 9
    ensures DECIMAL_DIGITS[9 + d] == DigitOf(Abs(d))
  {
    var t := DECIMAL_DIGITS;
    assert t[0] == '9' && t[1] == '8' && t[2] == '7' && t[3] == '6' && t[4] == '5';
    assert t[5] == '4' && t[6] == '3' && t[7] == '2' && t[8] == '1' && t[9] == '0';
    assert t[10] == '1' && t[11] == '2' && t[12] == '3' && t[13] == '4' && t[14] == '5';
    assert t[15] == '6' && t[16] == '7' && t[17] == '8' && t[18] == '9';
    var h := HEX_DIGITS;
    assert h[0] == '0' && h[1] == '1' && h[2] == '2' && h[3] == '3' && h[4] == '4';
    assert h[5] == '5' && h[6] == '6' && h[7] == '7' && h[8] == '8' && h[9] == '9';
  }

  /** Digits so far, the least significant first, and what is still to be written. */
  ghost predicate Partly(value: nat, base: nat, left: nat, done: string, more: bool)
    requires 2 <= base <= 16
  {
    Numeral(value, base) == (if more then Numeral(left, base) else "") + Reversed(done)
  }

  lemma OneMoreDigit(value: nat, base: nat, left: nat, rest: nat, c: char, done: string)
    requires 2 <= base <= 16 && Partly(value, base, left, done, true)
    requires Numeral(left, base) == (if rest == 0 then "" else Numeral(rest, base)) + [c]
    ensures Partly(value, base, rest, done + [c], rest != 0)
  {
    hide Numeral;
    ReversedSnoc(done, c);
    hide Reversed;
    var head := if rest == 0 then "" else Numeral(rest, base);
    assert head + [c] + Reversed(done) == head + ([c] + Reversed(done));
  }

  /** The end of both conversions. */
  method Terminate(buf: array<char>, at: nat, p: nat)
    requires at <= p < buf.Length
    modifies buf
    ensures buf[at..p] == Reversed(old(buf[at..p])) && buf[p] == '\0'
    ensures SameOutside(old(buf[..]), buf[..], at, p + 1)
  {
    buf[p] := '\0';
    assert buf[at..p] == old(buf[at..p]);
    ReverseRange(buf, at, p);
  }

  method WriteSign(buf: array<char>, at: nat, p: nat, value: int) returns (p': nat)
    requires at <= p < buf.Length && Reversed(buf[at..p]) == Numeral(Abs(value), 10)
    modifies buf
    ensures p' == at + |Decimal(value)| <= buf.Length && Reversed(buf[at..p']) == Decimal(value)
    ensures SameOutside(old(buf[..]), buf[..], at, p')
  {
    hide Numeral;
    p' := p;
    assert |buf[at..p]| == |Numeral(Abs(value), 10)|;
    if value < 0 {
      ghost var digits := buf[at..p];
      ReversedSnoc(digits, '-');
      buf[p] := '-';
      p' := p + 1;
      assert buf[at..p'] == digits + ['-'];
    }
  }

  /** The digits and the sign, backwards. */
  method WriteBackwards(buf: array<char>, at: nat, value: int) returns (p: nat)
    requires at + |Decimal(value)| < buf.Length
    modifies buf
    ensures p == at + |Decimal(value)| && Reversed(buf[at..p]) == Decimal(value)
    ensures SameOutside(old(buf[..]), buf[..], at, p)
  {
    hide Numeral, Reversed, SameOutside;
    ghost var before := buf[..];
    var p0 := WriteDigits(buf, at, value);
    ghost var between := buf[..];
    p := WriteSign(buf, at, p0, value);
    SameOutsideTrans(before, between, buf[..], at, p0, p);
  }

  /** The digits come out backwards, then the sign, and all is reversed in place. */
  method Convert(buf: array<char>, at: nat, value: int) returns (len: nat)
    requires Fits64(value) && at + 20 < buf.Length
    modifies buf
    ensures len == |Decimal(value)| <= 20
    ensures buf[at..at + len] == Decimal(value) && buf[at + len] == '\0'
    ensures SameOutside(old(buf[..]), buf[..], at, at + len + 1)
  {
    hide Numeral, Reversed, Decimal, Abs, Fits64, SameOutside;
    DecimalLength(value);
    ghost var before := buf[..];
    var p := WriteBackwards(buf, at, value);
    ghost var between := buf[..];
    Terminate(buf, at, p);
    SameOutsideTrans(before, between, buf[..], at, p, p + 1);
    len := p - at;
  }

  /** The loop of `Convert`. */
  method WriteDigits(buf: array<char>, at: nat, value: int) returns (p: nat)
    requires at + |Numeral(Abs(value), 10)| <= buf.Length
    modifies buf
    ensures p == at + |Numeral(Abs(value), 10)| && Reversed(buf[at..p]) == Numeral(Abs(value), 10)
    ensures SameOutside(old(buf[..]), buf[..], at, p)
  {
    hide Numeral, Reversed, Date.Quot, Date.Rem;
    ghost var n := Abs(value);
    var i := value;
    var more := true;
    p := at;
    assert Partly(n, 10, n, buf[at..p], true) by { NothingYet(n, 10); }
    while more
      invariant at <= p <= buf.Length
      invariant Partly(n, 10, Abs(i), buf[at..p], more)
      invariant forall j :: 0 <= j < buf.Length && !(at <= j < p) ==> buf[j] == old(buf[j])
      decreases more, Abs(i)
    {
      LastDigit(i);
      ghost var done := buf[at..p];
      var lsd := Date.Rem(i, 10);
      var rest := Date.Quot(i, 10);
      OneMoreDigit(n, 10, Abs(i), Abs(rest), DECIMAL_DIGITS[9 + lsd], done);
      i := rest;
      buf[p] := DECIMAL_DIGITS[9 + lsd];
      p := p + 1;
      more := i != 0;
      assert buf[at..p] == done + [DECIMAL_DIGITS[9 + lsd]];
    }
  }

  lemma NothingYet(n: nat, base: nat)
    requires 2 <= base <= 16
    ensures Partly(n, base, n, "", true)
  {
    hide Numeral;
    assert Numeral(n, base) + "" == Numeral(n, base);
  }

  lemma LastHexDigit(i: nat)
    ensures Numeral(i, 16) == (if i / 16 == 0 then "" else Numeral(i / 16, 16)) + [HEX_DIGITS[i % 16]]
  {
    hide DigitOf;
    if i < 16 {
      assert Numeral(i, 16) == [DigitOf(i)];
      assert "" + [DigitOf(i)] == [DigitOf(i)];
    } else {
      NumeralUnfolds(i, 16);
    }
    HexDigit(i % 16);
  }

  lemma HexDigit(d: nat)
    requires d < 16
    ensures DigitOf(d) == HEX_DIGITS[d]
  {
  }

  /** The loop of `ConvertHex`. */
  method WriteHexDigits(buf: array<char>, at: nat, value: nat) returns (p: nat)
    requires at + |Numeral(value, 16)| <= buf.Length
    modifies buf
    ensures p == at + |Numeral(value, 16)| && Reversed(buf[at..p]) == Numeral(value, 16)
    ensures SameOutside(old(buf[..]), buf[..], at, p)
  {
    hide Numeral, Reversed;
    var i := value;
    var more := true;
    p := at;
    assert Partly(value, 16, value, buf[at..p], true) by { NothingYet(value, 16); }
    while more
      invariant at <= p <= buf.Length
      invariant Partly(value, 16, i, buf[at..p], more)
      invariant forall j :: 0 <= j < buf.Length && !(at <= j < p) ==> buf[j] == old(buf[j])
      decreases more, i
    {
      LastHexDigit(i);
      ghost var done := buf[at..p];
      var lsd := i % 16;
      OneMoreDigit(value, 16, i, i / 16, HEX_DIGITS[lsd], done);
      i := i / 16;
      buf[p] := HEX_DIGITS[lsd];
      p := p + 1;
      more := i != 0;
      assert buf[at..p] == done + [HEX_DIGITS[lsd]];
    }
  }

  method ConvertHex(buf: array<char>, at: nat, value: nat) returns (len: nat)
    requires value <= UINT64_MAX && at + 16 < buf.Length
    modifies buf
    ensures len == |Numeral(value, 16)| <= 16
    ensures buf[at..at + len] == Numeral(value, 16) && buf[at + len] == '\0'
    ensures SameOutside(old(buf[..]), buf[..], at, at + len + 1)
  {
    HexLength(value);
    hide Numeral, Reversed, SameOutside;
    ghost var before := buf[..];
    var p := WriteHexDigits(buf, at, value);
    ghost var between := buf[..];
    Terminate(buf, at, p);
    SameOutsideTrans(before, between, buf[..], at, p, p + 1);
    len := p - at;
  }

  /** The prefix and the address behind it. */
  method WritePointer(buf: array<char>, at: nat, address: nat) returns (len: nat)
    requires address <= UINT64_MAX && at + 18 < buf.Length
    modifies buf
    ensures len == |Numeral(address, 16)| + 2 <= 18 && buf[at..at + len] == "0x" + Numeral(address, 16)
    ensures SameOutside(old(buf[..]), buf[..], at, at + len + 1)
  {
    hide Numeral;
    buf[at] := '0';
    buf[at + 1] := 'x';
    var n := ConvertHex(buf, at + 2, address);
    assert buf[at + 2..at + 2 + n] == Numeral(address, 16);
    assert buf[at] == '0' && buf[at + 1] == 'x';
    len := n + 2;
    assert buf[at..at + len] == [buf[at], buf[at + 1]] + buf[at + 2..at + len];
  }

  // ---------------------------------------------------------------- insertions

  const MAX_NUMERIC_SIZE := 48

  /** What the insertion operators are given; a null string is written out. */
  datatype Token =
    | Integer(value: int)
    | Pointer(address: nat)
    | Text(text: string)
    | NullText
    | Boolean(flag: bool)
    | Character(c: char)

  predicate ValidToken(token: Token) {
    match token
    case Integer(value) => Fits64(value)
    case Pointer(address) => address <= UINT64_MAX
    case _ => true
  }

  function Rendered(token: Token): (s: string) {
    match token
    case Integer(value) => Decimal(value)
    case Pointer(address) => "0x" + Numeral(address, 16)
    case Text(text) => text
    case NullText => "(null)"
    case Boolean(flag) => if flag then "1" else "0"
    case Character(c) => [c]
  }

  /** The room a token asks for before it is written. */
  function Room(token: Token): (n: nat) {
    if token.Integer? || token.Pointer? then MAX_NUMERIC_SIZE else |Rendered(token)| + 1
  }

  function AfterInsert(size: nat, contents: string, token: Token): (contents': string)
    requires |contents| <= size
  {
    if Room(token) <= size - |contents| then contents + Rendered(token) else contents
  }

  /** Numbers read back from what is inserted for them; a flag is inserted as the number one or zero. */
  lemma RenderedReadsBack(token: Token)
    ensures token.Integer? ==> ReadDecimal(Rendered(token)) == token.value && Canonical(Rendered(token))
    ensures token.Pointer? ==>
              var s := Rendered(token); |s| > 2 && s[..2] == "0x" && ValueOf(s[2..], 16) == token.address
    ensures token.Boolean? ==> ReadDecimal(Rendered(token)) == if token.flag then 1 else 0
  {
    match token
    case Integer(value) =>
      DecimalRoundTrip(value);
      DecimalIsCanonical(value);
    case Pointer(address) =>
      NumeralRoundTrip(address, 16);
      var n := Numeral(address, 16);
      assert ("0x" + n)[2..] == n && ("0x" + n)[..2] == "0x";
    case Boolean(flag) =>
      assert "1"[..0] == "" && "0"[..0] == "";
      assert ValueOf("1", 10) == 1 && ValueOf("0", 10) == 0;
    case _ =>
  }

  /** The room asked for is enough, with a byte to spare. */
  lemma RoomIsEnough(token: Token)
    requires ValidToken(token)
    ensures |Rendered(token)| + 1 <= Room(token)
  {
    hide Decimal, Numeral;
    match token
    case Integer(value) => DecimalLength(value);
    case Pointer(address) => HexLength(address);
    case _ =>
  }

  predicate ValidTokens(tokens: seq<Token>) {
    forall i :: 0 <= i < |tokens| ==> ValidToken(tokens[i])
  }

  /** The tokens chosen, one after the other. */
  function Joined(tokens: seq<Token>, chosen: seq<bool>): (s: string)
    requires |tokens| == |chosen|
    decreases |tokens|
  {
    if tokens == [] then ""
    else
      var k := |tokens| - 1;
      Joined(tokens[..k], chosen[..k]) + (if chosen[k] then Rendered(tokens[k]) else "")
  }

  // ---------------------------------------------------------------- the buffer and the stream

  class FixedBuffer {
    var data: array<char>
    var cur: nat

    ghost predicate Valid()
      reads this
    {
      cur < data.Length
    }

    ghost function Contents(): (s: string)
      reads this, data
      requires Valid()
    {
      data[..cur]
    }

    constructor (size: nat)
      requires size >= 1
      ensures Valid() && fresh(data) && data.Length == size && Contents() == ""
    {
      data := new char[size];
      cur := 0;
    }

    method Append(s: string)
      requires Valid()
      modifies this`cur, data
      ensures Valid() && data == old(data)
      ensures Contents() == if |s| < data.Length - old(cur) then old(Contents()) + s else old(Contents())
    {
      if data.Length - cur > |s| {
        for i := 0 to |s|
          invariant cur + |s| < data.Length
          invariant data[..cur] == old(data[..cur])
          invariant data[cur..cur + i] == s[..i]
        {
          data[cur + i] := s[i];
        }
        assert data[..cur + |s|] == data[..cur] + data[cur..cur + |s|];
        cur := cur + |s|;
      }
    }
  }

  class LogStream {
    const buffer: FixedBuffer

    ghost predicate Valid()
      reads this, buffer
    {
      buffer.Valid()
    }

    constructor (size: nat)
      requires size >= 1
      ensures fresh(buffer) && fresh(buffer.data) && Valid() && buffer.data.Length == size && buffer.Contents() == ""
    {
      buffer := new FixedBuffer(size);
    }

    method FormatInteger(value: int)
      requires Valid() && Fits64(value)
      modifies buffer`cur, buffer.data
      ensures Valid() && buffer.data == old(buffer.data)
      ensures buffer.Contents() == AfterInsert(buffer.data.Length, old(buffer.Contents()), Integer(value))
    {
      hide Decimal;
      var data, cur := buffer.data, buffer.cur;
      if data.Length - cur >= MAX_NUMERIC_SIZE {
        var len := Convert(data, cur, value);
        buffer.cur := cur + len;
        assert data[..cur + len] == data[..cur] + data[cur..cur + len];
        assert data[..cur] == old(data[..cur]);
      }
    }

    method FormatPointer(address: nat)
      requires Valid() && address <= UINT64_MAX
      modifies buffer`cur, buffer.data
      ensures Valid() && buffer.data == old(buffer.data)
      ensures buffer.Contents() == AfterInsert(buffer.data.Length, old(buffer.Contents()), Pointer(address))
    {
      hide Numeral, Decimal;
      var data, cur := buffer.data, buffer.cur;
      if data.Length - cur >= MAX_NUMERIC_SIZE {
        var len := WritePointer(data, cur, address);
        buffer.cur := cur + len;
        assert data[..cur + len] == data[..cur] + data[cur..cur + len];
        assert data[..cur] == old(data[..cur]);
      }
    }

    method Insert(token: Token)
      requires Valid() && ValidToken(token)
      modifies buffer`cur, buffer.data
      ensures Valid() && buffer.data == old(buffer.data)
      ensures buffer.Contents() == AfterInsert(buffer.data.Length, old(buffer.Contents()), token)
    {
      match token
      case Integer(value) => FormatInteger(value);
      case Pointer(address) => FormatPointer(address);
      case Text(text) => buffer.Append(text);
      case NullText => buffer.Append("(null)");
      case Boolean(flag) => buffer.Append(if flag then "1" else "0");
      case Character(c) => buffer.Append([c]);
    }

    /** Any insertions into a stream with any contents: each token is there whole, in its turn, or not at
        all, and is left out exactly when the room it asks for is not free. The cursor stays inside. */
    method InsertAll(tokens: seq<Token>) returns (ghost chosen: seq<bool>)
      requires Valid() && ValidTokens(tokens)
      modifies buffer`cur, buffer.data
      ensures Valid() && buffer.data == old(buffer.data) && |chosen| == |tokens|
      ensures buffer.Contents() == old(buffer.Contents()) + Joined(tokens, chosen)
      ensures Chose(tokens, chosen, old(buffer.Contents()), buffer.data.Length)
    {
      hide Room, Rendered, Joined, Before, Chose;
      chosen := [];
      ChoseNone(tokens, buffer.Contents(), buffer.data.Length);
      ghost var start := buffer.Contents();
      BeforeAny(tokens, start);
      for k := 0 to |tokens|
        invariant Valid() && buffer.data == old(buffer.data) && |chosen| == k
        invariant buffer.Contents() == Before(tokens, chosen, start, k)
        invariant Chose(tokens, chosen, start, buffer.data.Length)
      {
        ghost var taken := |buffer.Contents()| + Room(tokens[k]) <= buffer.data.Length;
        ChoseStep(tokens, chosen, taken, start, buffer.data.Length);
        TextStep(tokens, chosen, taken, start);
        Insert(tokens[k]);
        chosen := chosen + [taken];
      }
      AllTurns(tokens, chosen, start);
    }
  }

  lemma ChoseNone(tokens: seq<Token>, start: string, size: nat)
    ensures Chose(tokens, [], start, size)
  {
  }

  lemma AllTurns(tokens: seq<Token>, chosen: seq<bool>, start: string)
    requires |chosen| == |tokens|
    ensures Before(tokens, chosen, start, |tokens|) == start + Joined(tokens, chosen)
  {
    assert tokens[..|tokens|] == tokens && chosen[..|tokens|] == chosen;
  }

  lemma BeforeAny(tokens: seq<Token>, start: string)
    ensures Before(tokens, [], start, 0) == start
  {
  }

  /** What is in the buffer when it is the turn of token `i`. */
  function Before(tokens: seq<Token>, chosen: seq<bool>, start: string, i: nat): (s: string)
    requires i <= |tokens| && i <= |chosen|
  {
    start + Joined(tokens[..i], chosen[..i])
  }

  /** The tokens chosen so far are those that found their room free. */
  ghost predicate Chose(tokens: seq<Token>, chosen: seq<bool>, start: string, size: nat) {
    && |chosen| <= |tokens|
    && forall i :: 0 <= i < |chosen| ==>
         (chosen[i] <==> |Before(tokens, chosen, start, i)| + Room(tokens[i]) <= size)
  }

  lemma SameBefore(tokens: seq<Token>, chosen: seq<bool>, taken: bool, start: string, i: nat)
    requires i <= |chosen| < |tokens|
    ensures Before(tokens, chosen + [taken], start, i) == Before(tokens, chosen, start, i)
  {
    hide Joined;
    assert (chosen + [taken])[..i] == chosen[..i];
  }

  lemma ChoseStep(tokens: seq<Token>, chosen: seq<bool>, taken: bool, start: string, size: nat)
    requires |chosen| < |tokens| && Chose(tokens, chosen, start, size)
    requires taken <==> |Before(tokens, chosen, start, |chosen|)| + Room(tokens[|chosen|]) <= size
    ensures Chose(tokens, chosen + [taken], start, size)
  {
    hide Before, Room;
    var more := chosen + [taken];
    forall i | 0 <= i < |more|
      ensures more[i] <==> |Before(tokens, more, start, i)| + Room(tokens[i]) <= size
    {
      SameBefore(tokens, chosen, taken, start, i);
    }
  }

  lemma TextStep(tokens: seq<Token>, chosen: seq<bool>, taken: bool, start: string)
    requires |chosen| < |tokens|
    ensures var k := |chosen|;
            Before(tokens, chosen + [taken], start, k + 1) ==
            Before(tokens, chosen, start, k) + (if taken then Rendered(tokens[k]) else "")
  {
    var k := |chosen|;
    assert (chosen + [taken])[..k + 1] == chosen + [taken] && chosen[..k] == chosen;
    JoinedStep(tokens, chosen, taken);
    hide Joined, Rendered;
    Together(start, Joined(tokens[..k], chosen), if taken then Rendered(tokens[k]) else "");
  }

  lemma JoinedStep(tokens: seq<Token>, chosen: seq<bool>, taken: bool)
    requires |chosen| < |tokens|
    ensures var k := |chosen|;
            Joined(tokens[..k + 1], chosen + [taken]) ==
            Joined(tokens[..k], chosen) + (if taken then Rendered(tokens[k]) else "")
  {
    hide Rendered;
    var k := |chosen|;
    assert tokens[..k + 1][..k] == tokens[..k] && (chosen + [taken])[..k] == chosen;
  }

  lemma Together(a: string, b: string, c: string)
    ensures a + b + c == a + (b + c)
  {
  }
}
