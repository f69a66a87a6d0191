/** The tracer's buffer dumps: how much is staged, how it is printed, and what a reader gets back. */
module HexDump {
  import Fnv

  // --- the printer ---

  function Digit(d: nat): char
    requires d < 16
  {
    "0123456789abcdef"[d]
  }

  function HexByte(b: Fnv.Byte): string {
    [Digit(b / 16), Digit(b % 16)]
  }

  function Decimal(n: nat): string {
    if n < 10 then [Digit(n)] else Decimal(n / 10) + [Digit(n % 10)]
  }

  /** What follows the `n`-th byte: a line break and indent every 32, a space every 4. */
  function Separator(n: nat): string {
    if n % 32 == 0 then "\n    " else if n % 4 == 0 then " " else ""
  }

  /** The first `n` bytes, indented, each followed by what `gap` says. */
  function Grouped(gap: nat -> string, data: seq<Fnv.Byte>, n: nat): string
    requires n <= |data|
  {
    if n == 0 then "    " else Grouped(gap, data, n - 1) + HexByte(data[n - 1]) + gap(n)
  }

  function Body(data: seq<Fnv.Byte>, n: nat): string
    requires n <= |data|
  {
    Grouped(Separator, data, n)
  }

  function Min(a: nat, b: nat): nat {
    if a < b then a else b
  }

  function Text(data: seq<Fnv.Byte>, size: nat, max: nat): string
    requires Min(size, max) <= |data|
  {
    Body(data, Min(size, max)) + (if size > max then "... (" + Decimal(size - max) + " more bytes)" else "") + "\n"
  }

  method DumpBufferHex(data: seq<Fnv.Byte>, size: nat, max: nat) returns (out: string)
    requires Min(size, max) <= |data|
    ensures out == Text(data, size, max)
    ensures out == Body(data, Min(size, max)) + if size > max then "... (" + Decimal(size - max) + " more bytes)\n" else "\n"
  {
    var dumped := Min(size, max);
    out := "    ";
    for i := 0 to dumped
      invariant out == Body(data, i)
    {
      out := out + HexByte(data[i]);
      if (i + 1) % 32 == 0 {
        out := out + "\n    ";
      } else if (i + 1) % 4 == 0 {
        out := out + " ";
      }
    }
    if size > max {
      out := out + ("... (" + Decimal(size - max) + " more bytes)");
    }
    out := out + "\n";
    assert out == Body(data, dumped) + if size > max then "... (" + Decimal(size - max) + " more bytes)\n" else "\n";
  }

  // --- where each byte is ---

  /** The offset of the byte at position `n`: two digits a byte, a space every 4, five characters
      instead of the space every 32. */
  function Offset(n: nat): nat {
    4 + 2 * n + (n / 4 - n / 32) + 5 * (n / 32)
  }

  lemma Quarter(n: nat)
    requires n > 0
    ensures n / 4 == (n - 1) / 4 + (if n % 4 == 0 then 1 else 0)
  {
  }

  lemma Line(n: nat)
    requires n > 0
    ensures n / 32 == (n - 1) / 32 + (if n % 32 == 0 then 1 else 0)
  {
  }

  lemma LineIsQuarter(n: nat)
    requires n % 32 == 0
    ensures n % 4 == 0
  {
    assert n == 4 * (8 * (n / 32));
  }

  lemma OffsetStep(n: nat)
    requires n > 0
    ensures Offset(n) == Offset(n - 1) + 2 + |Separator(n)|
  {
    Quarter(n);
    Line(n);
    if n % 32 == 0 {
      LineIsQuarter(n);
    }
  }

  lemma {:induction false} BodyLength(data: seq<Fnv.Byte>, n: nat)
    requires n <= |data|
    ensures |Body(data, n)| == Offset(n)
  {
    if n > 0 {
      BodyLength(data, n - 1);
      OffsetStep(n);
    }
  }

  lemma {:induction false} BytePlace(gap: nat -> string, data: seq<Fnv.Byte>, n: nat, i: nat)
    requires i < n <= |data|
    ensures var at := |Grouped(gap, data, i)|;
            at + 2 <= |Grouped(gap, data, n)| && Grouped(gap, data, n)[at..at + 2] == HexByte(data[i])
  {
    if i < n - 1 {
      BytePlace(gap, data, n - 1, i);
    }
    Within(Grouped(gap, data, n - 1), HexByte(data[n - 1]), gap(n), |Grouped(gap, data, i)|);
  }

  /** Every shown byte stands at its offset, whatever is around it. */
  lemma ByteAtOffset(data: seq<Fnv.Byte>, n: nat, i: nat)
    requires i < n <= |data|
    ensures Offset(i) + 2 <= |Body(data, n)| && Body(data, n)[Offset(i)..Offset(i) + 2] == HexByte(data[i])
  {
    BytePlace(Separator, data, n, i);
    BodyLength(data, i);
  }

  lemma Within(a: string, b: string, c: string, at: nat)
    requires |b| == 2
    ensures at + 2 <= |a| ==> (a + b + c)[at..at + 2] == a[at..at + 2]
    ensures at == |a| ==> (a + b + c)[at..at + 2] == b
  {
  }

  lemma {:induction false} BodyPrefix(data: seq<Fnv.Byte>, i: nat, n: nat)
    requires i <= n <= |data|
    ensures |Body(data, i)| <= |Body(data, n)| && Body(data, n)[..|Body(data, i)|] == Body(data, i)
    decreases n - i
  {
    if i < n {
      BodyPrefix(data, i, n - 1);
      assert Body(data, n)[..|Body(data, n - 1)|] == Body(data, n - 1);
    }
  }

  /** Between two bytes stands a line break and an indent after every 32nd byte, else one space after every
      4th, else nothing.  With the indent of the first line and `ByteAtOffset` this fixes the text. */
  lemma GapAtOffset(data: seq<Fnv.Byte>, n: nat, i: nat)
    requires 0 < i <= n <= |data|
    ensures Offset(i - 1) + 2 <= Offset(i) <= |Body(data, n)|
    ensures Body(data, n)[Offset(i - 1) + 2..Offset(i)] == if i % 32 == 0 then "\n    " else if i % 4 == 0 then " " else ""
    ensures Body(data, n)[..4] == "    "
  {
    OffsetStep(i);
    BodyLength(data, i - 1);
    BodyLength(data, i);
    BodyPrefix(data, i, n);
    BodyPrefix(data, 0, n);
    assert Body(data, n)[Offset(i - 1) + 2..Offset(i)] == Body(data, n)[..Offset(i)][Offset(i - 1) + 2..];
  }

  /** Character `k` comes right after the `i`-th byte, and 32 divides `i`. */
  ghost predicate BreakAfter(data: seq<Fnv.Byte>, i: nat, k: nat) {
    0 < i <= |data| && i % 32 == 0 && k == |Body(data, i - 1)| + 2
  }

  lemma DigitIsNoBreak(b: Fnv.Byte)
    ensures HexByte(b)[0] != '\n' && HexByte(b)[1] != '\n'
  {
  }

  lemma BreakStep(before: string, hex: string, n: nat, k: nat)
    requires |hex| == 2 && hex[0] != '\n' && hex[1] != '\n' && |before| <= k < |before + hex + Separator(n)|
    ensures (before + hex + Separator(n))[k] == '\n' <==> n % 32 == 0 && k == |before| + 2
  {
  }

  lemma EarlierBreak(data: seq<Fnv.Byte>, i: nat, n: nat, k: nat)
    requires i < n <= |data| && BreakAfter(data, i, k)
    ensures k < |Body(data, n - 1)|
  {
    BodyPrefix(data, i, n - 1);
    BodyPrefix(data, i - 1, i);
  }

  /** The text has line breaks exactly after every 32nd byte. */
  lemma {:induction false} BreaksExact(data: seq<Fnv.Byte>, n: nat, k: nat)
    requires n <= |data| && k < |Body(data, n)|
    ensures Body(data, n)[k] == '\n' <==> exists i: nat :: i <= n && BreakAfter(data, i, k)
  {
    if n > 0 {
      var before := Body(data, n - 1);
      if k < |before| {
        BreaksExact(data, n - 1, k);
        assert !BreakAfter(data, n, k);
      } else {
        DigitIsNoBreak(data[n - 1]);
        BreakStep(before, HexByte(data[n - 1]), n, k);
        forall i: nat | i < n && BreakAfter(data, i, k) ensures false {
          EarlierBreak(data, i, n, k);
        }
        assert BreakAfter(data, n, k) <==> n % 32 == 0 && k == |before| + 2;
      }
    }
  }

  // --- a reader ---

  /** What has been read: whole bytes, a pending high digit (-1 if none), and after the first dot a
      decimal number. */
  datatype Reader = Reader(bytes: seq<Fnv.Byte>, high: int, tail: bool, more: nat)

  const START := Reader([], -1, false, 0)

  /** The value of a hexadecimal digit; -1 for any other character. */
  function Nibble(c: char): int {
    if '0' <= c <= '9' then c as int - '0' as int
    else if 'a' <= c <= 'f' then c as int - 'a' as int + 10
    else -1
  }

  predicate Proper(r: Reader) {
    -1 <= r.high < 16
  }

  function Feed(r: Reader, c: char): (next: Reader)
    requires Proper(r)
    ensures Proper(next)
  {
    var d := Nibble(c);
    if r.tail then (if 0 <= d < 10 then r.(more := 10 * r.more + d) else r)
    else if c == '.' then r.(tail := true)
    else if d < 0 then r
    else if r.high < 0 then r.(high := d)
    else r.(bytes := r.bytes + [16 * r.high + d], high := -1)
  }

  /** Reads the first `n` characters. */
  function Read(r: Reader, text: string, n: nat): (next: Reader)
    requires Proper(r) && n <= |text|
    ensures Proper(next)
  {
    if n == 0 then r else Feed(Read(r, text, n - 1), text[n - 1])
  }

  function ReadAll(r: Reader, text: string): (next: Reader)
    requires Proper(r)
    ensures Proper(next)
  {
    Read(r, text, |text|)
  }

  lemma {:induction false} ReadOn(r: Reader, a: string, b: string, n: nat)
    requires Proper(r) && n <= |b|
    ensures Read(r, a + b, |a| + n) == Read(ReadAll(r, a), b, n)
  {
    if n > 0 {
      ReadOn(r, a, b, n - 1);
    } else {
      ReadPrefix(r, a, b, |a|);
    }
  }

  lemma {:induction false} ReadPrefix(r: Reader, a: string, b: string, n: nat)
    requires Proper(r) && n <= |a|
    ensures Read(r, a + b, n) == Read(r, a, n)
  {
    if n > 0 {
      ReadPrefix(r, a, b, n - 1);
    }
  }

  lemma ReadAppend(r: Reader, a: string, b: string)
    requires Proper(r)
    ensures ReadAll(r, a + b) == ReadAll(ReadAll(r, a), b)
  {
    ReadOn(r, a, b, |b|);
  }

  lemma DigitRead(d: nat)
    requires d < 16
    ensures Nibble(Digit(d)) == d && Digit(d) != '.'
  {
  }

  lemma ReadByte(r: Reader, b: Fnv.Byte)
    requires Proper(r) && !r.tail && r.high == -1
    ensures ReadAll(r, HexByte(b)) == r.(bytes := r.bytes + [b])
  {
    DigitRead(b / 16);
    DigitRead(b % 16);
    var s := HexByte(b);
    assert Read(r, s, 0) == r;
    assert Read(r, s, 1) == r.(high := b / 16);
    assert Read(r, s, 2) == Feed(Read(r, s, 1), s[1]);
  }

  lemma {:induction false} ReadBlank(r: Reader, s: string, n: nat)
    requires Proper(r) && n <= |s| && forall i :: 0 <= i < |s| ==> Nibble(s[i]) < 0 && (s[i] != '.' || r.tail)
    ensures Read(r, s, n) == r
  {
    if n > 0 {
      ReadBlank(r, s, n - 1);
    }
  }

  ghost predicate Blank(gap: nat -> string, n: nat) {
    forall i :: 0 <= i < |gap(n)| ==> Nibble(gap(n)[i]) < 0 && gap(n)[i] != '.'
  }

  lemma SeparatorBlank()
    ensures forall k :: Blank(Separator, k)
  {
  }

  lemma ByteAndGap(r: Reader, before: string, b: Fnv.Byte, gap: string)
    requires ReadAll(START, before) == r && !r.tail && r.high == -1
    requires forall i :: 0 <= i < |gap| ==> Nibble(gap[i]) < 0 && gap[i] != '.'
    ensures ReadAll(START, before + HexByte(b) + gap) == r.(bytes := r.bytes + [b])
  {
    ReadAppend(START, before + HexByte(b), gap);
    ReadAppend(START, before, HexByte(b));
    ReadByte(r, b);
    ReadBlank(r.(bytes := r.bytes + [b]), gap, |gap|);
  }

  /** However it is grouped, the text gives back exactly the shown bytes. */
  lemma {:induction false} GroupedRead(gap: nat -> string, data: seq<Fnv.Byte>, n: nat)
    requires n <= |data| && forall k :: Blank(gap, k)
    ensures ReadAll(START, Grouped(gap, data, n)) == START.(bytes := data[..n])
  {
    if n == 0 {
      ReadBlank(START, "    ", 4);
    } else {
      GroupedRead(gap, data, n - 1);
      assert Blank(gap, n);
      ByteAndGap(START.(bytes := data[..n - 1]), Grouped(gap, data, n - 1), data[n - 1], gap(n));
      assert data[..n] == data[..n - 1] + [data[n - 1]];
    }
  }

  lemma {:induction false} DecimalRead(r: Reader, n: nat)
    requires Proper(r) && r.tail && r.more == 0
    ensures ReadAll(r, Decimal(n)) == r.(more := n)
  {
    DigitRead(n % 10);
    if n < 10 {
      assert Read(r, Decimal(n), 0) == r;
    } else {
      DecimalRead(r, n / 10);
      ReadAppend(r, Decimal(n / 10), [Digit(n % 10)]);
      var mid := r.(more := n / 10);
      assert Read(mid, [Digit(n % 10)], 0) == mid;
      assert ReadAll(mid, [Digit(n % 10)]) == Feed(mid, Digit(n % 10));
    }
  }

  lemma TailRead(r: Reader, n: nat)
    requires Proper(r) && !r.tail && r.more == 0
    ensures ReadAll(r, "... (" + Decimal(n) + " more bytes)") == r.(tail := true, more := n)
  {
    var on := r.(tail := true);
    ReadAppend(r, "... (" + Decimal(n), " more bytes)");
    ReadAppend(r, "... (", Decimal(n));
    assert "... (" == "." + ".. (";
    ReadAppend(r, ".", ".. (");
    assert Read(r, ".", 0) == r;
    assert ReadAll(r, ".") == on;
    ReadBlank(on, ".. (", 4);
    DecimalRead(on, n);
    SkipWords(on.(more := n));
  }

  lemma SkipWords(r: Reader)
    requires Proper(r) && r.tail
    ensures ReadAll(r, " more bytes)") == r
  {
    SkipTail(r, " more bytes)", 12);
  }

  /** After the dots only decimal digits are read. */
  lemma {:induction false} SkipTail(r: Reader, s: string, n: nat)
    requires Proper(r) && r.tail && n <= |s| && forall i :: 0 <= i < |s| ==> !('0' <= s[i] <= '9')
    ensures Read(r, s, n) == r
  {
    if n > 0 {
      SkipTail(r, s, n - 1);
    }
  }

  /** Round trip: the reader recovers the shown bytes and the number left out, which add up to the size. */
  lemma TextRead(data: seq<Fnv.Byte>, size: nat, max: nat)
    requires Min(size, max) <= |data|
    ensures var r := ReadAll(START, Text(data, size, max));
            r.bytes == data[..Min(size, max)] && r.more == size - Min(size, max) && (r.tail <==> size > max) && r.high == -1
  {
    var n := Min(size, max);
    var body := Body(data, n);
    var more := if size > max then "... (" + Decimal(size - max) + " more bytes)" else "";
    SeparatorBlank();
    GroupedRead(Separator, data, n);
    var r := START.(bytes := data[..n]);
    ReadAppend(START, body + more, "\n");
    ReadAppend(START, body, more);
    if size > max {
      TailRead(r, size - max);
    }
    ReadBlank(ReadAll(r, more), "\n", 1);
  }

  // --- dumping a buffer ---

  /** How many bytes of a buffer a dump reads: all of them unless a positive limit is smaller. */
  function ReadSize(size: nat, full: bool, limit: nat): nat {
    if !full && limit > 0 && size > limit then limit else size
  }

  /** Stages and prints one buffer. The staged bytes suffice for the printer, and the text carries the
      first bytes of the buffer and the number of the others. */
  method DumpBuffer(memory: seq<Fnv.Byte>, full: bool, limit: nat) returns (out: string, staged: seq<Fnv.Byte>)
    ensures staged == if full || limit == 0 || |memory| <= limit then memory else memory[..limit]
    ensures var r := ReadAll(START, out); var shown := if full then |memory| else Min(|memory|, limit);
            r.bytes == memory[..shown] && |r.bytes| + r.more == |memory|
  {
    staged := memory[..ReadSize(|memory|, full, limit)];
    var max := if full then |memory| else limit;
    out := DumpBufferHex(staged, |memory|, max);
    TextRead(staged, |memory|, max);
  }

  /** Between two hash dumps of a buffer, a single changed byte shows up exactly when it lies in the
      part that the dump reads. */
  lemma ChangeSeen(before: seq<Fnv.Byte>, after: seq<Fnv.Byte>, k: nat, limit: nat)
    requires k < |before| == |after| && before[k] != after[k]
    requires forall i :: 0 <= i < |before| && i != k ==> before[i] == after[i]
    ensures ReadSize(|before|, false, limit) <= |before|
    ensures var n := ReadSize(|before|, false, limit); Fnv.Hash(before[..n]) != Fnv.Hash(after[..n]) <==> k < n
  {
    var n := ReadSize(|before|, false, limit);
    if k < n {
      Fnv.OneByteChange(before[..n], after[..n], k);
    } else {
      assert before[..n] == after[..n];
    }
  }
}
