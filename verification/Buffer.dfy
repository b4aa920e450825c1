/** The byte buffer of `mytinyhttpd/net/buffer.h` and `buffer.cc`.

    A growable vector is split by two indexes into prependable, readable and writable bytes. The
    readable region is the abstract value: every method says how it changes, across the two ways of
    growing and the compaction in `MakeSpace` and across the two segments of `readv`. A byte is held
    as the `char` of its value.
 */
module Buffers {
  import Date   // for lemmas on division

  const CHEAP_PREPEND := 8
  const INITIAL_SIZE := 1024
  const EXTRA_SIZE := 65536

  class Buffer {
    var data: string   // buffer_, of size |data|
    var cap: nat       // buffer_.capacity()
    var reader: nat    // reader_index_
    var writer: nat    // writer_index_

    // What the allocator leaves open: the bytes a default-initialising resize exposes, and the
    // room a fresh vector is given beyond its size.
    const junk: nat -> char
    const spare: nat -> nat

    predicate Valid()
      reads this
    {
      reader <= writer <= |data| <= cap && CHEAP_PREPEND <= |data|
    }

    function Contents(): (s: string)
      requires Valid()
      reads this
    {
      data[reader..writer]
    }

    function WritableBytes(): (n: nat)
      requires Valid()
      reads this
    {
      |data| - writer
    }

    /** `Append` can make room for `len` bytes: it asserts otherwise. Only a reallocation while
        prepended bytes are still unread cannot. */
    predicate CanMakeRoom(len: nat)
      requires Valid()
      reads this
    {
      || len <= WritableBytes()
      || len + CHEAP_PREPEND <= WritableBytes() + reader
      || writer + len < cap
      || CHEAP_PREPEND <= reader
    }

    constructor (initialSize: nat, junk: nat -> char, spare: nat -> nat)
      ensures Valid() && Contents() == "" && reader == CHEAP_PREPEND
      ensures WritableBytes() == initialSize
    {
      this.junk := junk;
      this.spare := spare;
      data := seq(CHEAP_PREPEND + initialSize, _ => '\0');
      cap := CHEAP_PREPEND + initialSize + spare(CHEAP_PREPEND + initialSize);
      reader, writer := CHEAP_PREPEND, CHEAP_PREPEND;
    }

    // -------------------------------------------------------------- growing

    method MoveReadableFront()
      requires Valid() && CHEAP_PREPEND <= reader
      modifies this
      ensures Valid() && Contents() == old(Contents())
      ensures |data| == old(|data|) && cap == old(cap) && reader == CHEAP_PREPEND
    {
      var readable := data[reader..writer];
      data := data[..CHEAP_PREPEND] + readable + data[CHEAP_PREPEND + |readable|..];
      reader := CHEAP_PREPEND;
      writer := reader + |readable|;
    }

    method MakeSpace(len: nat)
      requires Valid() && WritableBytes() < len && CanMakeRoom(len)
      modifies this
      ensures Valid() && Contents() == old(Contents())
      ensures WritableBytes() >= len
      ensures reader == old(reader) || reader == CHEAP_PREPEND
      ensures |data| == if old(WritableBytes() + reader) >= len + CHEAP_PREPEND then old(|data|)
                        else if old(writer + len < cap) then old(writer) + len
                        else CHEAP_PREPEND + old(writer) + len
    {
      if WritableBytes() + reader < len + CHEAP_PREPEND {
        if writer + len < cap {
          data := data + seq(writer + len - |data|, i requires i >= 0 => junk(i));
        } else {
          var temp := new Buffer(writer + len, junk, spare);
          var readable := data[reader..writer];
          data := temp.data[..CHEAP_PREPEND] + readable + temp.data[CHEAP_PREPEND + |readable|..];
          cap := temp.cap;
          reader := CHEAP_PREPEND;
          writer := reader + |readable|;
        }
      } else {
        MoveReadableFront();
      }
    }

    method EnsureWritableBytes(len: nat)
      requires Valid() && CanMakeRoom(len)
      modifies this
      ensures Valid() && Contents() == old(Contents())
      ensures WritableBytes() >= len
      ensures reader == old(reader) || reader == CHEAP_PREPEND
      ensures len <= old(WritableBytes()) ==> reader == old(reader) && WritableBytes() == old(WritableBytes())
    {
      if WritableBytes() < len {
        MakeSpace(len);
      }
    }

    /** Bytes that fit, put behind the contents. */
    method FillIn(bytes: string)
      requires Valid() && |bytes| <= WritableBytes()
      modifies this
      ensures Valid() && Contents() == old(Contents()) + bytes
      ensures reader == old(reader) && cap == old(cap) && writer == old(writer) + |bytes| && |data| == old(|data|)
    {
      data := data[..writer] + bytes + data[writer + |bytes|..];
      writer := writer + |bytes|;
    }

    method Append(bytes: string)
      requires Valid() && CanMakeRoom(|bytes|)
      modifies this
      ensures Valid() && Contents() == old(Contents()) + bytes
      ensures reader == old(reader) || reader == CHEAP_PREPEND
      ensures |bytes| <= old(WritableBytes())
              ==> reader == old(reader) && WritableBytes() == old(WritableBytes()) - |bytes|
    {
      EnsureWritableBytes(|bytes|);
      FillIn(bytes);
    }

    /** `readv` into the writable bytes and, when those are few, a second segment on the stack:
        `input` is what it read, unless it failed. The bytes of the second segment are appended, which
        needs room as any append does. */
    method ReadFromFd(input: string, failed: bool) returns (n: int)
      requires Valid()
      requires |input| <= WritableBytes() + (if WritableBytes() < EXTRA_SIZE then EXTRA_SIZE else 0)
      requires |input| <= WritableBytes() || CHEAP_PREPEND <= reader || writer + |input| < cap
      modifies this
      ensures Valid()
      ensures n == if failed then -1 else |input|
      ensures Contents() == old(Contents()) + (if failed then "" else input)
      ensures reader == old(reader) || reader == CHEAP_PREPEND
    {
      var writable := WritableBytes();
      if failed {
        n := -1;
      } else if |input| <= writable {
        FillIn(input);
        n := |input|;
      } else {
        FillIn(input[..writable]);
        Append(input[writable..]);
        n := |input|;
        assert Contents() == old(Contents()) + (input[..writable] + input[writable..]);
        assert input == input[..writable] + input[writable..];
      }
    }

    method Shrink(reserve: nat)
      requires Valid()
      modifies this
      ensures Valid() && Contents() == old(Contents())
      ensures reader == CHEAP_PREPEND && cap == |data| && WritableBytes() >= reserve
    {
      var temp := new Buffer(INITIAL_SIZE, junk, spare);
      temp.EnsureWritableBytes(|Contents()| + reserve);
      temp.Append(Contents());
      data, cap, reader, writer := temp.data, |temp.data|, temp.reader, temp.writer;
    }

    // -------------------------------------------------------------- consuming

    method RetrieveAll()
      requires Valid()
      modifies this
      ensures Valid() && Contents() == "" && reader == CHEAP_PREPEND
    {
      reader, writer := CHEAP_PREPEND, CHEAP_PREPEND;
    }

    method Retrieve(len: nat)
      requires Valid() && len <= |Contents()|
      modifies this
      ensures Valid() && Contents() == old(Contents())[len..]
      ensures old(reader) <= reader || reader == CHEAP_PREPEND
    {
      if len < writer - reader {
        reader := reader + len;
      } else {
        RetrieveAll();
      }
    }

    method RetrieveAsString(len: nat) returns (result: string)
      requires Valid() && len <= |Contents()|
      modifies this
      ensures Valid() && result == old(Contents())[..len] && Contents() == old(Contents())[len..]
      ensures old(reader) <= reader || reader == CHEAP_PREPEND
    {
      result := data[reader..reader + len];
      Retrieve(len);
    }

    method Unwrite(len: nat)
      requires Valid() && len <= |Contents()|
      modifies this
      ensures Valid() && Contents() == old(Contents())[..|old(Contents())| - len]
      ensures reader == old(reader)
    {
      writer := writer - len;
    }

    method Prepend(bytes: string)
      requires Valid() && |bytes| <= reader
      modifies this
      ensures Valid() && Contents() == bytes + old(Contents())
      ensures reader == old(reader) - |bytes|
    {
      reader := reader - |bytes|;
      data := data[..reader] + bytes + data[reader + |bytes|..];
    }

    // -------------------------------------------------------------- integers

    method AppendInt(x: int, width: nat)
      requires Valid() && CanMakeRoom(width) && FitsSigned(x, width)
      modifies this
      ensures Valid() && Contents() == old(Contents()) + Encode(x, width)
      ensures reader == old(reader) || reader == CHEAP_PREPEND
    {
      Append(Encode(x, width));
    }

    method PrependInt(x: int, width: nat)
      requires Valid() && width <= reader && FitsSigned(x, width)
      modifies this
      ensures Valid() && Contents() == Encode(x, width) + old(Contents())
      ensures reader == old(reader) - width
    {
      Prepend(Encode(x, width));
    }

    method ReadInt(width: nat) returns (x: int)
      requires Valid() && 0 < width <= |Contents()|
      modifies this
      ensures Valid() && x == Decode(old(Contents())[..width]) && Contents() == old(Contents())[width..]
      ensures old(reader) <= reader || reader == CHEAP_PREPEND
    {
      x := Decode(data[reader..reader + width]);
      assert data[reader..reader + width] == Contents()[..width];
      Retrieve(width);
    }

    // -------------------------------------------------------------- searching

    /** `std::search` for CRLF in the readable bytes; -1 stands for the null result. */
    method FindCrlf() returns (at: int)
      requires Valid()
      ensures at == CrlfIn(Contents())
    {
      var s := Contents();
      at := 0;
      while at + 1 < |s|
        invariant 0 <= at && (|s| >= 2 ==> at < |s|)
        invariant forall j :: 0 <= j < at ==> !CrlfAt(s, j)
      {
        if s[at] == '\r' && s[at + 1] == '\n' {
          CrlfInIsFirst(s, at);
          return;
        }
        at := at + 1;
      }
      CrlfInIsNone(s);
      at := -1;
    }

    /** `memchr` for a line feed in the readable bytes. */
    method FindEol() returns (at: int)
      requires Valid()
      ensures -1 <= at < |Contents()|
      ensures at >= 0 ==> Contents()[at] == '\n' && '\n' !in Contents()[..at]
      ensures at == -1 ==> '\n' !in Contents()
    {
      var s := Contents();
      at := 0;
      while at < |s|
        invariant 0 <= at <= |s|
        invariant '\n' !in s[..at]
      {
        if s[at] == '\n' { return; }
        at := at + 1;
      }
      at := -1;
    }
  }

  // ---------------------------------------------------------------- CRLF in a byte string

  predicate CrlfAt(s: string, i: int) {
    0 <= i && i + 1 < |s| && s[i] == '\r' && s[i + 1] == '\n'
  }

  /** The first CRLF, or -1. */
  function CrlfIn(s: string): (i: int)
    ensures i == -1 || CrlfAt(s, i)
    ensures forall j :: CrlfAt(s, j) ==> 0 <= i <= j
  {
    if |s| < 2 then -1
    else if s[0] == '\r' && s[1] == '\n' then 0
    else
      var r := CrlfIn(s[1..]);
      assert forall j :: CrlfAt(s, j) ==> j > 0 && CrlfAt(s[1..], j - 1);
      if r == -1 then -1 else r + 1
  }

  lemma CrlfInIsFirst(s: string, i: int)
    requires CrlfAt(s, i) && forall j :: 0 <= j < i ==> !CrlfAt(s, j)
    ensures CrlfIn(s) == i
  {
  }

  lemma CrlfInIsNone(s: string)
    requires forall j :: 0 <= j < |s| ==> !CrlfAt(s, j)
    ensures CrlfIn(s) == -1
  {
  }

  // ---------------------------------------------------------------- big-endian integers

  function Pow256(k: nat): (p: nat)
    ensures p >= 1
  {
    if k == 0 then 1 else 256 * Pow256(k - 1)
  }

  predicate FitsSigned(x: int, width: nat) {
    0 <= 2 * x + Pow256(width) && 2 * x < Pow256(width)
  }

  /** The low `k` bytes of `x`, most significant first: what `htobe` leaves in memory. */
  function BigEndian(x: nat, k: nat): (s: string)
    ensures |s| == k
  {
    if k == 0 then "" else BigEndian(x / 256, k - 1) + [(x % 256) as char]
  }

  function FromBigEndian(s: string): (x: nat) {
    if s == "" then 0 else FromBigEndian(s[..|s| - 1]) * 256 + s[|s| - 1] as int
  }

  /** `AppendIntN`: two's complement in network byte order. */
  function Encode(x: int, width: nat): (s: string)
    requires FitsSigned(x, width)
    ensures |s| == width
  {
    BigEndian(if x < 0 then x + Pow256(width) else x, width)
  }

  /** `PeekIntN`. */
  function Decode(s: string): (x: int) {
    var u := FromBigEndian(s);
    if 2 * u < Pow256(|s|) then u else u - Pow256(|s|)
  }

  predicate AreBytes(s: string) {
    forall i :: 0 <= i < |s| ==> s[i] as int < 256
  }

  lemma {:induction false} BigEndianRoundTrip(x: nat, k: nat)
    requires x < Pow256(k)
    ensures FromBigEndian(BigEndian(x, k)) == x && AreBytes(BigEndian(x, k))
  {
    if k > 0 {
      var q, r := x / 256, x % 256;
      assert x == 256 * q + r && q < Pow256(k - 1);
      BigEndianRoundTrip(q, k - 1);
      var pre, s := BigEndian(q, k - 1), BigEndian(x, k);
      assert s == pre + [r as char] && s[..|s| - 1] == pre;
      hide BigEndian;
    }
  }

  lemma {:induction false} FromBigEndianRoundTrip(s: string)
    requires AreBytes(s)
    ensures FromBigEndian(s) < Pow256(|s|) && BigEndian(FromBigEndian(s), |s|) == s
  {
    if s != "" {
      var pre := s[..|s| - 1];
      FromBigEndianRoundTrip(pre);
      var x := FromBigEndian(s);
      assert x / 256 == FromBigEndian(pre) && x % 256 == s[|s| - 1] as int;
      assert s == pre + [s[|s| - 1]];
    }
  }

  /** The most significant byte comes first. */
  lemma {:induction false} BigEndianAt(x: nat, k: nat, i: nat)
    requires i < k
    ensures BigEndian(x, k)[i] as int == x / Pow256(k - 1 - i) % 256
  {
    if i < k - 1 {
      BigEndianAt(x / 256, k - 1, i);
      DivTwice(x, Pow256(k - 2 - i));
    }
  }

  lemma DivTwice(x: nat, p: nat)
    requires p > 0
    ensures x / 256 / p == x / (256 * p)
  {
    var q := x / 256;
    var r, t := q / p, q % p;
    assert x == 256 * (p * r + t) + x % 256;
    assert 0 <= 256 * t + x % 256 < 256 * p;
    assert x == 256 * p * r + (256 * t + x % 256);
    Date.DivUnique(x, 256 * p, r, 256 * t + x % 256);
  }

  /** Integers are in network byte order: byte `i` is the one of weight 256 to the power of the bytes behind
      it, of the two's complement. */
  lemma NetworkByteOrder(x: int, width: nat, i: nat)
    requires FitsSigned(x, width) && i < width
    ensures Encode(x, width)[i] as int == (if x < 0 then x + Pow256(width) else x) / Pow256(width - 1 - i) % 256
  {
    BigEndianAt(if x < 0 then x + Pow256(width) else x, width, i);
  }

  /** Reading an integer gives the integer that was written, negative ones included. */
  lemma IntegerRoundTrip(x: int, width: nat)
    requires FitsSigned(x, width)
    ensures Decode(Encode(x, width)) == x && AreBytes(Encode(x, width))
  {
    var u := if x < 0 then x + Pow256(width) else x;
    BigEndianRoundTrip(u, width);
  }

  /** Every byte string is the encoding of the integer it is read as. */
  lemma BytesRoundTrip(s: string)
    requires AreBytes(s) && s != ""
    ensures FitsSigned(Decode(s), |s|) && Encode(Decode(s), |s|) == s
  {
    FromBigEndianRoundTrip(s);
    var u, p := FromBigEndian(s), Pow256(|s|);
    if 2 * u >= p {
      assert Decode(s) + p == u;
      assert Decode(s) < 0;
    }
  }

  datatype Field = Field(x: int, width: nat)

  predicate Writable(fields: seq<Field>) {
    forall i :: 0 <= i < |fields| ==> fields[i].width > 0 && FitsSigned(fields[i].x, fields[i].width)
  }

  /** The bytes a sequence of `AppendIntN` calls adds. */
  function EncodeAll(fields: seq<Field>): (s: string)
    requires Writable(fields)
  {
    if fields == [] then "" else Encode(fields[0].x, fields[0].width) + EncodeAll(fields[1..])
  }

  /** Appending integers of any widths queues their encodings in order. */
  method WriteAll(buf: Buffer, fields: seq<Field>)
    requires buf.Valid() && CHEAP_PREPEND <= buf.reader && Writable(fields)
    modifies buf
    ensures buf.Valid() && CHEAP_PREPEND <= buf.reader
    ensures buf.Contents() == old(buf.Contents()) + EncodeAll(fields)
  {
    var i := 0;
    assert fields[0..] == fields;
    while i < |fields|
      invariant i <= |fields| && buf.Valid() && CHEAP_PREPEND <= buf.reader
      invariant buf.Contents() + EncodeAll(fields[i..]) == old(buf.Contents()) + EncodeAll(fields)
    {
      assert fields[i..][1..] == fields[i + 1..];
      buf.AppendInt(fields[i].x, fields[i].width);
      i := i + 1;
    }
  }

  /** Integers of any widths come out of a buffer in the order, and with the values, they went in,
      and leave what is queued behind them. */
  method ReadAll(buf: Buffer, fields: seq<Field>, ghost behind: string) returns (read: seq<int>)
    requires buf.Valid() && CHEAP_PREPEND <= buf.reader && Writable(fields)
    requires buf.Contents() == EncodeAll(fields) + behind
    modifies buf
    ensures |read| == |fields| && forall i :: 0 <= i < |fields| ==> read[i] == fields[i].x
    ensures buf.Valid() && buf.Contents() == behind
  {
    read := [];
    var i := 0;
    assert fields[0..] == fields;
    while i < |fields|
      invariant i <= |fields| && buf.Valid() && CHEAP_PREPEND <= buf.reader
      invariant buf.Contents() == EncodeAll(fields[i..]) + behind
      invariant |read| == i && forall j :: 0 <= j < i ==> read[j] == fields[j].x
    {
      var f := fields[i];
      FirstField(fields[i..], behind);
      assert fields[i..][1..] == fields[i + 1..];
      var x := buf.ReadInt(f.width);
      read := read + [x];
      i := i + 1;
    }
  }

  lemma FirstField(fields: seq<Field>, behind: string)
    requires fields != [] && Writable(fields)
    ensures var s, f := EncodeAll(fields) + behind, fields[0];
            f.width <= |s| && Decode(s[..f.width]) == f.x && s[f.width..] == EncodeAll(fields[1..]) + behind
  {
    hide Encode, Decode, FitsSigned;
    var f := fields[0];
    var e, rest := Encode(f.x, f.width), EncodeAll(fields[1..]);
    assert EncodeAll(fields) == e + rest;
    SplitFront(e, rest, behind);
    IntegerRoundTrip(f.x, f.width);
  }

  lemma SplitFront(e: string, rest: string, behind: string)
    ensures (e + rest + behind)[..|e|] == e && (e + rest + behind)[|e|..] == rest + behind
  {
  }
}
