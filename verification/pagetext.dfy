/** Pages on the wire: two upper-case hexadecimal digits per byte, in memory order. */
module PageText {
  import opened Types
  import opened Division
  import opened NumberText

  type Byte = b: nat | b < 256

  function HexDigit(d: nat): (c: char)
    requires d < 16
    ensures DigitValue(c) == Some(d)
  {
    if d < 10 then '0' + d as char else 'A' + (d - 10) as char
  }

  function HexText(bytes: seq<Byte>): (text: string)
    ensures |text| == 2 * |bytes|
  {
    if bytes == [] then "" else [HexDigit(bytes[0] / 16), HexDigit(bytes[0] % 16)] + HexText(bytes[1..])
  }

  lemma {:induction false} HexTextSnoc(bytes: seq<Byte>, b: Byte)
    ensures HexText(bytes + [b]) == HexText(bytes) + [HexDigit(b / 16), HexDigit(b % 16)]
    decreases |bytes|
  {
    if bytes == [] {
      assert bytes + [b] == [b] && [b][1..] == [];
    } else {
      assert (bytes + [b])[1..] == bytes[1..] + [b];
      HexTextSnoc(bytes[1..], b);
    }
  }

  method ToHex(arr: array<Byte>, len: nat) returns (text: string)
    requires len <= arr.Length
    ensures text == HexText(arr[..len])
  {
    text := "";
    for i := 0 to len
      invariant text == HexText(arr[..i])
    {
      HexTextSnoc(arr[..i], arr[i]);
      assert arr[..i + 1] == arr[..i] + [arr[i]];
      text := text + [HexDigit(arr[i] / 16), HexDigit(arr[i] % 16)];
    }
  }

  /** Two characters as a C string: it ends at the first NUL. */
  function Slice(a: char, b: char): string {
    if a == '\0' then "" else if b == '\0' then [a] else [a, b]
  }

  /** The byte that one pair of characters stands for; a lone last character is followed by NUL. */
  function PairValue(s: string): Result<Byte>
    requires s != ""
  {
    var n :- Stoul(Slice(s[0], if |s| > 1 then s[1] else '\0'), 16);
    Ok(n % 256)
  }

  function Rest(s: string): string { if |s| > 2 then s[2..] else "" }

  function Bytes(s: string): (r: Result<seq<Byte>>)
    ensures r.Ok? ==> |r.value| == (|s| + 1) / 2
    decreases |s|
  {
    if s == "" then Ok([]) else
      var b :- PairValue(s);
      var bs :- Bytes(Rest(s));
      Ok([b] + bs)
  }

  /** What decoding `s` gives when `done` has been decoded and `rest` is still to come. */
  function Combined(done: seq<Byte>, rest: string): Result<seq<Byte>> {
    var bs :- Bytes(rest);
    Ok(done + bs)
  }

  lemma CombinedStep(done: seq<Byte>, rest: string)
    requires rest != ""
    ensures PairValue(rest).Ok? ==> Combined(done, rest) == Combined(done + [PairValue(rest).value], Rest(rest))
    ensures PairValue(rest).Err? ==> Combined(done, rest) == Err(PairValue(rest).error)
  {
    if PairValue(rest).Ok? && Bytes(Rest(rest)).Ok? {
      var b, bs := PairValue(rest).value, Bytes(Rest(rest)).value;
      assert done + ([b] + bs) == done + [b] + bs;
    }
  }

  function Behind(s: string, i: nat): string { if i <= |s| then s[i..] else "" }

  lemma RestBehind(s: string, i: nat)
    requires i < |s|
    ensures Rest(Behind(s, i)) == Behind(s, i + 2)
  {
  }

  /** The buffer is as long as the text; its first half is filled, unless a pair does not parse. */
  method FromHex(s: string) returns (r: Result<array<Byte>>)
    ensures Bytes(s).Err? ==> r == Err(Bytes(s).error)
    ensures Bytes(s).Ok? ==> r.Ok?
    ensures r.Ok? ==> fresh(r.value) && r.value.Length == |s| && Bytes(s) == Ok(r.value[..(|s| + 1) / 2])
  {
    hide PairValue;
    var ret := new Byte[|s|];
    var i := 0;
    ghost var done, rest := [], s;
    if Bytes(s).Ok? {
      assert [] + Bytes(s).value == Bytes(s).value;
    }
    while i < |s|
      invariant i == 2 * |done| && |done| <= |s|
      invariant rest == Behind(s, i)
      invariant ret[..|done|] == done
      invariant Bytes(s) == Combined(done, rest)
    {
      CombinedStep(done, rest);
      var pair := PairValue(s[i..]);
      if pair.Err? {
        return Err(pair.error);
      }
      ret[i / 2] := pair.value;
      assert ret[..|done| + 1] == done + [pair.value];
      RestBehind(s, i);
      done, rest := done + [pair.value], Behind(s, i + 2);
      i := i + 2;
    }
    assert done + [] == done;
    return Ok(ret);
  }

  lemma ValueOfPair(a: char, b: char)
    ensures Value([a, b], 16) == DigitOr0(a) * 16 + DigitOr0(b)
  {
    assert [a, b][..1] == [a] && [a][..0] == "";
    assert Value([a], 16) == DigitOr0(a);
  }

  lemma HexPairIsRead(a: char, b: char)
    requires IsDigit(a, 16) && IsDigit(b, 16)
    ensures Stoul(Slice(a, b), 16) == Ok(DigitOr0(a) * 16 + DigitOr0(b))
  {
    StoulOfDigits([a, b], 16);
    ValueOfPair(a, b);
  }

  /** A pair is read up to its first character that is no digit; upper and lower case are the same. */
  lemma PairIsRead(s: string)
    requires s != "" && IsDigit(s[0], 16)
    ensures PairValue(s) ==
            Ok(if |s| > 1 && IsDigit(s[1], 16) then 16 * DigitOr0(s[0]) + DigitOr0(s[1]) else DigitOr0(s[0]))
  {
    if |s| > 1 && IsDigit(s[1], 16) {
      HexPairIsRead(s[0], s[1]);
    } else {
      LoneDigitIsRead(s[0], if |s| > 1 then s[1] else '\0');
    }
  }

  lemma LoneDigitIsRead(a: char, b: char)
    requires IsDigit(a, 16) && !IsDigit(b, 16)
    ensures Stoul(Slice(a, b), 16) == Ok(DigitOr0(a))
  {
    var s := Slice(a, b);
    assert s == [a] + s[1..];
    AllDigitsLead([a], s[1..], 16);
    assert [a][..0] == "" && Value([a], 16) == DigitOr0(a);
  }

  lemma HexDigitIs(d: nat)
    requires d < 16
    ensures HexDigit(d) == "0123456789ABCDEF"[d]
  {
  }

  lemma ByteIsRead(b: Byte)
    ensures var pair := [HexDigit(b / 16), HexDigit(b % 16)];
            pair == ["0123456789ABCDEF"[b / 16], "0123456789ABCDEF"[b % 16]] && Stoul(pair, 16) == Ok(b)
  {
    hide Stoul, HexDigit;
    var x, y := HexDigit(b / 16), HexDigit(b % 16);
    DigitOfHex(b / 16);
    DigitOfHex(b % 16);
    HexDigitIs(b / 16);
    HexDigitIs(b % 16);
    HexPairIsRead(x, y);
    assert Slice(x, y) == [x, y];
  }

  lemma CaseDoesNotMatter(d: nat)
    requires 10 <= d < 16
    ensures DigitValue('A' + (d - 10) as char) == DigitValue('a' + (d - 10) as char) == Some(d)
  {
  }

  /** A pair that does not begin with a digit, a sign or white space stops the decoding. */
  lemma BadPairFails(s: string)
    requires s != "" && !IsDigit(s[0], 16) && !IsSpace(s[0]) && s[0] != '+' && s[0] != '-'
    ensures PairValue(s) == Err(InvalidArgument) && Bytes(s) == Err(InvalidArgument)
  {
  }

  lemma DigitOfHex(d: nat)
    requires d < 16
    ensures IsDigit(HexDigit(d), 16) && DigitOr0(HexDigit(d)) == d
  {
  }

  lemma PairOfHexDigits(s: string, b: Byte)
    requires |s| >= 2 && s[0] == HexDigit(b / 16) && s[1] == HexDigit(b % 16)
    ensures PairValue(s) == Ok(b)
  {
    hide HexDigit, IsDigit, DigitOr0, Stoul, Slice;
    DigitOfHex(b / 16);
    DigitOfHex(b % 16);
    HexPairIsRead(s[0], s[1]);
  }

  lemma BytesStep(s: string, b: Byte)
    requires s != "" && PairValue(s) == Ok(b) && Bytes(Rest(s)).Ok?
    ensures Bytes(s) == Ok([b] + Bytes(Rest(s)).value)
  {
  }

  lemma HexTextStep(b: Byte, bytes: seq<Byte>)
    ensures HexText([b] + bytes) == [HexDigit(b / 16), HexDigit(b % 16)] + HexText(bytes)
  {
    assert ([b] + bytes)[1..] == bytes;
  }

  /** Decoding the text of any bytes gives those bytes back. */
  lemma {:induction false} BytesOfHexText(bytes: seq<Byte>)
    ensures Bytes(HexText(bytes)) == Ok(bytes)
    decreases |bytes|
  {
    if bytes != [] {
      var text := HexText(bytes);
      assert bytes == [bytes[0]] + bytes[1..];
      HexTextStep(bytes[0], bytes[1..]);
      PairOfHexDigits(text, bytes[0]);
      assert Rest(text) == HexText(bytes[1..]);
      BytesOfHexText(bytes[1..]);
      BytesStep(text, bytes[0]);
    }
  }

  predicate IsUpperHex(c: char) { '0' <= c <= '9' || 'A' <= c <= 'F' }

  lemma HexPair(c: char, d: char) returns (b: Byte)
    requires IsUpperHex(c) && IsUpperHex(d)
    ensures HexDigit(b / 16) == c && HexDigit(b % 16) == d
  {
    b := 16 * DigitOr0(c) + DigitOr0(d);
    assert b / 16 == DigitOr0(c) && b % 16 == DigitOr0(d);
  }

  lemma RestIsUpperHex(text: string)
    requires |text| >= 2 && |text| % 2 == 0 && forall k | 0 <= k < |text| :: IsUpperHex(text[k])
    ensures |Rest(text)| == |text| - 2 && forall k | 0 <= k < |Rest(text)| :: IsUpperHex(Rest(text)[k])
    ensures text == [text[0], text[1]] + Rest(text)
  {
  }

  /** Encoding what an even-length upper-case hex text decodes to gives the text back. */
  lemma {:induction false} HexTextOfBytes(text: string)
    requires |text| % 2 == 0 && forall k | 0 <= k < |text| :: IsUpperHex(text[k])
    ensures Bytes(text).Ok? && HexText(Bytes(text).value) == text
    decreases |text|
  {
    if text != "" {
      hide PairValue, HexDigit, Bytes, HexText, Rest, IsUpperHex;
      RestIsUpperHex(text);
      var b := HexPair(text[0], text[1]);
      PairOfHexDigits(text, b);
      HexTextOfBytes(Rest(text));
      BytesStep(text, b);
      HexTextStep(b, Bytes(Rest(text)).value);
    }
  }

  // ---------- words and pages ----------

  function LittleEndian(w: nat, n: nat): (bytes: seq<Byte>)
    ensures |bytes| == n
  {
    if n == 0 then [] else [w % 256] + LittleEndian(w / 256, n - 1)
  }

  function NumberOf(bytes: seq<Byte>): nat {
    if bytes == [] then 0 else bytes[0] + 256 * NumberOf(bytes[1..])
  }

  /** 256 to the n-th. */
  function Power(n: nat): (p: nat)
    ensures p > 0
  {
    if n == 0 then 1 else 256 * Power(n - 1)
  }

  lemma {:induction false} NumberOfLittleEndian(w: nat, n: nat)
    requires w < Power(n)
    ensures NumberOf(LittleEndian(w, n)) == w
  {
    if n == 0 {
    } else {
      NumberOfLittleEndian(w / 256, n - 1);
      assert LittleEndian(w, n)[1..] == LittleEndian(w / 256, n - 1);
    }
  }

  /** The bytes of words as they lie in memory. */
  function MemoryBytes(words: seq<Word>): (bytes: seq<Byte>)
    ensures |bytes| == 8 * |words|
  {
    if words == [] then [] else LittleEndian(words[0], 8) + MemoryBytes(words[1..])
  }

  function WordAt(bytes: seq<Byte>): Word { NumberOf(bytes) % WORD_LIMIT }

  function MemoryWords(bytes: seq<Byte>): (words: seq<Word>)
    ensures |words| == |bytes| / 8
  {
    if |bytes| < 8 then [] else [WordAt(bytes[..8])] + MemoryWords(bytes[8..])
  }

  lemma {:induction false} WordsOfMemoryBytes(words: seq<Word>)
    ensures MemoryWords(MemoryBytes(words)) == words
    decreases |words|
  {
    if words == [] {
    } else {
      var bytes := MemoryBytes(words);
      assert Power(8) == WORD_LIMIT by {
        assert Power(4) == 256 * (256 * (256 * (256 * Power(0))));
        assert Power(8) == 256 * (256 * (256 * (256 * Power(4))));
      }
      NumberOfLittleEndian(words[0], 8);
      assert bytes[..8] == LittleEndian(words[0], 8) && bytes[8..] == MemoryBytes(words[1..]);
      WordsOfMemoryBytes(words[1..]);
    }
  }

  /** The text a page is sent as: 8192 characters. */
  function PageToText(page: Page): (text: string)
    ensures |text| == 16 * CELLS
  {
    HexText(MemoryBytes(page))
  }

  function TextToPage(text: string): Result<Page>
    requires |text| == 16 * CELLS
  {
    var bytes :- Bytes(text);
    Ok(MemoryWords(bytes))
  }

  // ---------- where each byte is ----------

  lemma {:induction false} LittleEndianAt(w: nat, n: nat, k: nat)
    requires k < n
    ensures LittleEndian(w, n)[k] == (w / Power(k)) % 256
    decreases k
  {
    if k > 0 {
      LittleEndianAt(w / 256, n - 1, k - 1);
      DivideTwice(w, 256, Power(k - 1));
    }
  }

  lemma {:induction false} MemoryByteAt(words: seq<Word>, j: nat, k: nat)
    requires j < |words| && k < 8
    ensures MemoryBytes(words)[8 * j + k] == LittleEndian(words[j], 8)[k]
    decreases j
  {
    if j > 0 {
      MemoryByteAt(words[1..], j - 1, k);
    }
  }

  lemma {:induction false} HexPairAt(bytes: seq<Byte>, m: nat)
    requires m < |bytes|
    ensures HexText(bytes)[2 * m] == HexDigit(bytes[m] / 16) && HexText(bytes)[2 * m + 1] == HexDigit(bytes[m] % 16)
    decreases m
  {
    if m > 0 {
      HexPairAt(bytes[1..], m - 1);
    }
  }

  /**
   * In the text of a page the words follow each other, and each word's bytes do, the lowest first: byte
   * k of word j is the number that the two characters at 16 * j + 2 * k are read as, and these are its
   * two hexadecimal digits.
   */
  lemma PageTextAt(page: Page, j: nat, k: nat)
    requires j < CELLS && k < 8
    ensures var at := 16 * j + 2 * k;
            var b := (page[j] / Power(k)) % 256;
            && PageToText(page)[at..at + 2] == ["0123456789ABCDEF"[b / 16], "0123456789ABCDEF"[b % 16]]
            && Stoul(PageToText(page)[at..at + 2], 16) == Ok(b)
  {
    hide HexText, MemoryBytes, LittleEndian, HexDigit, Stoul, Power, IsDigit, DigitOr0;
    var b := MemoryBytes(page)[8 * j + k];
    var at := 16 * j + 2 * k;
    MemoryByteAt(page, j, k);
    LittleEndianAt(page[j], 8, k);
    HexPairAt(MemoryBytes(page), 8 * j + k);
    assert PageToText(page)[at..at + 2] == [HexDigit(b / 16), HexDigit(b % 16)];
    ByteIsRead(b);
  }

  lemma PageTextRoundTrip(page: Page)
    ensures TextToPage(PageToText(page)) == Ok(page)
  {
    BytesOfHexText(MemoryBytes(page));
    WordsOfMemoryBytes(page);
  }
}
