/**
 * `process_ledger_output` of `src/ledger.rs`: the standard output of
 * `ledger accounts` is decoded as UTF-8 and cut at every newline, and the
 * empty pieces are dropped; what remains are the account names, in order.
 */
module LedgerOutput {
  import opened Results
  import opened Text

  newtype byte = x: int | 0 <= x < 256

  /** `String::from_utf8` failed: the bytes are not well-formed UTF-8. */
  datatype Utf8Error = InvalidUtf8

  // ---------------------------------------------------------------------
  // UTF-8, with the well-formedness rules of `String::from_utf8`

  predicate IsContinuation(b: byte) {
    0x80 <= b <= 0xBF
  }

  /**
   * The first character of `b` and the number of bytes it takes, or `None`
   * when `b` does not start with a well-formed sequence: no continuation
   * byte first, no overlong form, no surrogate, nothing above U+10FFFF and
   * no sequence cut short.
   */
  function DecodeFirst(b: seq<byte>): Option<(char, nat)>
    requires b != []
  {
    var b0 := b[0] as int;
    if b0 < 0x80 then
      Some((b0 as char, 1))
    else if 0xC2 <= b0 <= 0xDF && |b| >= 2 && IsContinuation(b[1]) then
      Some((((b0 - 0xC0) * 64 + (b[1] as int - 0x80)) as char, 2))
    else if 0xE0 <= b0 <= 0xEF && |b| >= 3 && IsContinuation(b[1]) && IsContinuation(b[2])
      && (b0 == 0xE0 ==> b[1] >= 0xA0) && (b0 == 0xED ==> b[1] <= 0x9F) then
      Some((((b0 - 0xE0) * 4096 + (b[1] as int - 0x80) * 64 + (b[2] as int - 0x80)) as char, 3))
    else if 0xF0 <= b0 <= 0xF4 && |b| >= 4 && IsContinuation(b[1]) && IsContinuation(b[2]) && IsContinuation(b[3])
      && (b0 == 0xF0 ==> b[1] >= 0x90) && (b0 == 0xF4 ==> b[1] <= 0x8F) then
      Some((((b0 - 0xF0) * 262144 + (b[1] as int - 0x80) * 4096 + (b[2] as int - 0x80) * 64 + (b[3] as int - 0x80)) as char, 4))
    else
      None
  }

  /** `String::from_utf8`: a decoded text is one whose UTF-8 form is exactly the bytes. */
  function Decode(b: seq<byte>): (r: Result<string, Utf8Error>)
    ensures r.Ok? ==> Encode(r.value) == b
    decreases |b|
  {
    if b == [] then Ok([])
    else
      match DecodeFirst(b)
      case None => Err(InvalidUtf8)
      case Some((ch, n)) =>
        if 0 < n <= |b| then
          match Decode(b[n..])
          case Ok(rest) =>
            EncodeDecodeFirst(b);
            assert ([ch] + rest)[0] == ch && ([ch] + rest)[1..] == rest;
            assert b[..n] + b[n..] == b;
            Ok([ch] + rest)
          case Err(e) => Err(e)
        else Err(InvalidUtf8)
  }

  /** The UTF-8 form of one character, the inverse of `DecodeFirst`. */
  function EncodeChar(ch: char): (r: seq<byte>)
    ensures 1 <= |r| <= 4
  {
    var c := ch as int;
    if c < 0x80 then
      [c as byte]
    else if c < 0x800 then
      [(0xC0 + c / 64) as byte, (0x80 + c % 64) as byte]
    else if c < 0x10000 then
      [(0xE0 + c / 4096) as byte, (0x80 + (c / 64) % 64) as byte, (0x80 + c % 64) as byte]
    else
      [(0xF0 + c / 262144) as byte, (0x80 + (c / 4096) % 64) as byte,
       (0x80 + (c / 64) % 64) as byte, (0x80 + c % 64) as byte]
  }

  function Encode(s: string): seq<byte> {
    if s == [] then [] else EncodeChar(s[0]) + Encode(s[1..])
  }

  /** Decoding the start of an encoded character gives the character back. */
  lemma DecodeEncodeChar(ch: char, rest: seq<byte>)
    ensures DecodeFirst(EncodeChar(ch) + rest) == Some((ch, |EncodeChar(ch)|))
  {
    var c := ch as int;
    if c < 0x80 {
    } else if c < 0x800 {
      DecodeTwo(ch, rest);
    } else if c < 0x10000 {
      DecodeThree(ch, rest);
    } else {
      DecodeFour(ch, rest);
    }
  }

  lemma DecodeTwo(ch: char, rest: seq<byte>)
    requires 0x80 <= ch as int < 0x800
    ensures DecodeFirst(EncodeChar(ch) + rest) == Some((ch, 2))
  {
    var c := ch as int;
    var hi, lo := c / 64, c % 64;
    assert c == hi * 64 + lo && 2 <= hi < 32 && 0 <= lo < 64;
    var e := EncodeChar(ch) + rest;
    assert e[0] as int == 0xC0 + hi && e[1] as int == 0x80 + lo;
    assert ((e[0] as int - 0xC0) * 64 + (e[1] as int - 0x80)) as char == ch;
  }

  lemma DecodeThree(ch: char, rest: seq<byte>)
    requires 0x800 <= ch as int < 0x10000
    ensures DecodeFirst(EncodeChar(ch) + rest) == Some((ch, 3))
  {
    var c := ch as int;
    var q, lo := c / 64, c % 64;
    var hi, mid := q / 64, q % 64;
    assert c == q * 64 + lo && 0 <= lo < 64;
    assert q == hi * 64 + mid && 0 <= mid < 64 && hi < 16;
    assert c / 4096 == hi;
    var e := EncodeChar(ch) + rest;
    assert e[0] as int == 0xE0 + hi && e[1] as int == 0x80 + mid && e[2] as int == 0x80 + lo;
    assert c == hi * 4096 + mid * 64 + lo;
    assert ((e[0] as int - 0xE0) * 4096 + (e[1] as int - 0x80) * 64 + (e[2] as int - 0x80)) as char == ch;
  }

  lemma DecodeFour(ch: char, rest: seq<byte>)
    requires 0x10000 <= ch as int
    ensures DecodeFirst(EncodeChar(ch) + rest) == Some((ch, 4))
  {
    var c := ch as int;
    var q1, b3 := c / 64, c % 64;
    var q2, b2 := q1 / 64, q1 % 64;
    var b0, b1 := q2 / 64, q2 % 64;
    assert c == q1 * 64 + b3 && 0 <= b3 < 64;
    assert q1 == q2 * 64 + b2 && 0 <= b2 < 64;
    assert q2 == b0 * 64 + b1 && 0 <= b1 < 64;
    assert c / 4096 == q2;
    assert c / 262144 == b0;
    assert c == b0 * 262144 + b1 * 4096 + b2 * 64 + b3;
    assert c < 0x11_0000;
    assert 0 <= b0 <= 4 && (b0 == 0 ==> b1 >= 16);
    assert b0 == 4 ==> b1 < 16;
    var e := EncodeChar(ch) + rest;
    assert e[0] as int == 0xF0 + b0 && e[1] as int == 0x80 + b1;
    assert e[2] as int == 0x80 + b2 && e[3] as int == 0x80 + b3;
    assert ((e[0] as int - 0xF0) * 262144 + (e[1] as int - 0x80) * 4096 + (e[2] as int - 0x80) * 64 + (e[3] as int - 0x80)) as char == ch;
  }

  /** The bytes `DecodeFirst` accepts are the UTF-8 form of the character it returns. */
  lemma EncodeDecodeFirst(b: seq<byte>)
    requires b != [] && DecodeFirst(b).Some?
    ensures 0 < DecodeFirst(b).value.1 <= |b|
    ensures EncodeChar(DecodeFirst(b).value.0) == b[..DecodeFirst(b).value.1]
  {
    var b0 := b[0] as int;
    if b0 < 0x80 {
    } else if 0xC2 <= b0 <= 0xDF && |b| >= 2 && IsContinuation(b[1]) {
      EncodeTwo(b);
    } else if 0xE0 <= b0 <= 0xEF && |b| >= 3 && IsContinuation(b[1]) && IsContinuation(b[2])
      && (b0 == 0xE0 ==> b[1] >= 0xA0) && (b0 == 0xED ==> b[1] <= 0x9F) {
      EncodeThree(b);
    } else {
      EncodeFour(b);
    }
  }

  lemma EncodeTwo(b: seq<byte>)
    requires |b| >= 2 && 0xC2 <= b[0] <= 0xDF && IsContinuation(b[1])
    ensures EncodeChar(DecodeFirst(b).value.0) == b[..2]
  {
    var hi, lo := b[0] as int - 0xC0, b[1] as int - 0x80;
    var c := hi * 64 + lo;
    assert DecodeFirst(b).value.0 as int == c;
    assert 0x80 <= c < 0x800;
    assert c / 64 == hi && c % 64 == lo;
    var e := EncodeChar(DecodeFirst(b).value.0);
    assert e[0] == b[0] && e[1] == b[1];
  }

  lemma EncodeThree(b: seq<byte>)
    requires |b| >= 3 && 0xE0 <= b[0] <= 0xEF && IsContinuation(b[1]) && IsContinuation(b[2])
    requires (b[0] == 0xE0 ==> b[1] >= 0xA0) && (b[0] == 0xED ==> b[1] <= 0x9F)
    ensures EncodeChar(DecodeFirst(b).value.0) == b[..3]
  {
    var hi, mid, lo := b[0] as int - 0xE0, b[1] as int - 0x80, b[2] as int - 0x80;
    var q := hi * 64 + mid;
    var c := q * 64 + lo;
    assert c == hi * 4096 + mid * 64 + lo;
    assert DecodeFirst(b).value.0 as int == c;
    assert 0x800 <= c < 0x10000;
    assert c / 64 == q && c % 64 == lo;
    assert q / 64 == hi && q % 64 == mid;
    assert c / 4096 == hi;
    var e := EncodeChar(DecodeFirst(b).value.0);
    assert e[0] == b[0] && e[1] == b[1] && e[2] == b[2];
  }

  lemma EncodeFour(b: seq<byte>)
    requires |b| >= 4 && 0xF0 <= b[0] <= 0xF4 && IsContinuation(b[1]) && IsContinuation(b[2]) && IsContinuation(b[3])
    requires (b[0] == 0xF0 ==> b[1] >= 0x90) && (b[0] == 0xF4 ==> b[1] <= 0x8F)
    ensures EncodeChar(DecodeFirst(b).value.0) == b[..4]
  {
    var d0, d1, d2, d3 := b[0] as int - 0xF0, b[1] as int - 0x80, b[2] as int - 0x80, b[3] as int - 0x80;
    var q2 := d0 * 64 + d1;
    var q1 := q2 * 64 + d2;
    var c := q1 * 64 + d3;
    assert c == d0 * 262144 + d1 * 4096 + d2 * 64 + d3;
    assert DecodeFirst(b).value.0 as int == c;
    assert 0x10000 <= c;
    assert c / 64 == q1 && c % 64 == d3;
    assert q1 / 64 == q2 && q1 % 64 == d2;
    assert q2 / 64 == d0 && q2 % 64 == d1;
    assert c / 4096 == q2 && c / 262144 == d0;
    var e := EncodeChar(DecodeFirst(b).value.0);
    assert e[0] == b[0] && e[1] == b[1] && e[2] == b[2] && e[3] == b[3];
  }

  /** Every string's UTF-8 form decodes back to the string. */
  lemma {:induction false} DecodeEncode(s: string)
    ensures Decode(Encode(s)) == Ok(s)
  {
    if s != [] {
      var e := EncodeChar(s[0]);
      DecodeEncodeChar(s[0], Encode(s[1..]));
      assert (e + Encode(s[1..]))[|e|..] == Encode(s[1..]);
      DecodeEncode(s[1..]);
      assert [s[0]] + s[1..] == s;
    }
  }

  /** A continuation byte cannot start the output. */
  lemma StrayContinuation(b: seq<byte>)
    requires b != [] && IsContinuation(b[0])
    ensures Decode(b) == Err(InvalidUtf8)
  {
  }

  /** The overlong two-byte form of an ASCII character is refused. */
  lemma OverlongRefused(b: seq<byte>)
    requires |b| >= 2 && (b[0] == 0xC0 || b[0] == 0xC1)
    ensures Decode(b) == Err(InvalidUtf8)
  {
  }

  /** Surrogate code points (`ED A0 80` to `ED BF BF`) are refused. */
  lemma SurrogateRefused(b: seq<byte>)
    requires |b| >= 3 && b[0] == 0xED && b[1] >= 0xA0
    ensures Decode(b) == Err(InvalidUtf8)
  {
  }

  /** A rejected byte anywhere spoils the whole output. */
  lemma {:induction false} DecodeErrSuffix(a: string, b: seq<byte>)
    requires Decode(b).Err?
    ensures Decode(Encode(a) + b).Err?
  {
    if a == [] {
      assert Encode(a) + b == b;
    } else {
      var e := EncodeChar(a[0]);
      DecodeEncodeChar(a[0], Encode(a[1..]) + b);
      assert e + Encode(a[1..]) + b == e + (Encode(a[1..]) + b);
      assert (e + (Encode(a[1..]) + b))[|e|..] == Encode(a[1..]) + b;
      DecodeErrSuffix(a[1..], b);
    }
  }

  // ---------------------------------------------------------------------
  // split("\n") and the filter

  /**
   * `str::split("\n")`: the pieces between newlines, an empty piece where
   * two newlines meet or the text starts or ends with one; `""` is one
   * empty piece.
   */
  function Split(s: string): (r: seq<string>)
    ensures |r| >= 1
    decreases |s|
  {
    if s == [] then [[]]
    else if s[0] == '\n' then [[]] + Split(s[1..])
    else
      var rest := Split(s[1..]);
      [[s[0]] + rest[0]] + rest[1..]
  }

  /** The pieces put back together with newlines between them. */
  function Join(pieces: seq<string>): string
    requires |pieces| >= 1
    decreases |pieces|
  {
    if |pieces| == 1 then pieces[0] else pieces[0] + "\n" + Join(pieces[1..])
  }

  /** `.filter(|s| s != &"")`, keeping the order. */
  function NonEmpty(pieces: seq<string>): (r: seq<string>)
    ensures |r| <= |pieces|
    ensures forall x :: x in r <==> x in pieces && x != []
  {
    if pieces == [] then []
    else if pieces[0] == [] then NonEmpty(pieces[1..])
    else [pieces[0]] + NonEmpty(pieces[1..])
  }

  /** All characters of the pieces, in order. */
  function Concat(pieces: seq<string>): string {
    if pieces == [] then [] else pieces[0] + Concat(pieces[1..])
  }

  /** The text without its newlines. */
  function DropNewlines(s: string): string {
    if s == [] then [] else (if s[0] == '\n' then [] else [s[0]]) + DropNewlines(s[1..])
  }

  /** Splitting loses nothing: joining the pieces with newlines gives the text. */
  lemma {:induction false} JoinSplit(s: string)
    ensures Join(Split(s)) == s
    decreases |s|
  {
    if s != [] {
      JoinSplit(s[1..]);
      var rest := Split(s[1..]);
      if s[0] == '\n' {
        assert ([[]] + rest)[1..] == rest;
        assert Join(Split(s)) == [] + "\n" + Join(rest);
      } else {
        var r := [[s[0]] + rest[0]] + rest[1..];
        if |rest| == 1 {
          assert Join(r) == [s[0]] + rest[0];
        } else {
          assert r[1..] == rest[1..];
          assert Join(r) == [s[0]] + rest[0] + "\n" + Join(rest[1..]);
          assert Join(rest) == rest[0] + "\n" + Join(rest[1..]);
        }
      }
    }
  }

  /** No piece holds a newline. */
  lemma {:induction false} SplitNoNewline(s: string)
    ensures forall p :: p in Split(s) ==> '\n' !in p
    decreases |s|
  {
    if s != [] {
      SplitNoNewline(s[1..]);
      var rest := Split(s[1..]);
      if s[0] != '\n' {
        assert rest[0] in rest;
        forall p | p in [[s[0]] + rest[0]] + rest[1..] ensures '\n' !in p {
          if p != [s[0]] + rest[0] {
            assert p in rest;
          }
        }
      }
    }
  }

  /** The pieces hold exactly the text's other characters, in order. */
  lemma {:induction false} ConcatSplit(s: string)
    ensures Concat(Split(s)) == DropNewlines(s)
    decreases |s|
  {
    if s != [] {
      ConcatSplit(s[1..]);
      var rest := Split(s[1..]);
      if s[0] == '\n' {
        assert ([[]] + rest)[1..] == rest;
      } else {
        var r := [[s[0]] + rest[0]] + rest[1..];
        assert r[1..] == rest[1..];
        assert Concat(rest) == rest[0] + Concat(rest[1..]);
        assert Concat(r) == [s[0]] + rest[0] + Concat(rest[1..]);
      }
    }
  }

  /** There is one more piece than there are newlines. */
  lemma {:induction false} SplitCount(s: string)
    ensures |Split(s)| == NewlineCount(s) + 1
    decreases |s|
  {
    if s != [] {
      SplitCount(s[1..]);
    }
  }

  /** Dropping empty pieces leaves the characters as they were. */
  lemma {:induction false} ConcatNonEmpty(pieces: seq<string>)
    ensures Concat(NonEmpty(pieces)) == Concat(pieces)
  {
    if pieces != [] {
      ConcatNonEmpty(pieces[1..]);
      if pieces[0] != [] {
        assert ([pieces[0]] + NonEmpty(pieces[1..]))[1..] == NonEmpty(pieces[1..]);
      }
    }
  }

  /** A text with nothing but newlines has no non-empty piece. */
  lemma {:induction false} OnlyNewlines(s: string)
    requires forall i :: 0 <= i < |s| ==> s[i] == '\n'
    ensures NonEmpty(Split(s)) == []
    decreases |s|
  {
    if s != [] {
      OnlyNewlines(s[1..]);
      assert ([[]] + Split(s[1..]))[1..] == Split(s[1..]);
    }
  }

  /** A newline-free text is a single piece. */
  lemma {:induction false} SplitWord(w: string)
    requires '\n' !in w
    ensures Split(w) == [w]
    decreases |w|
  {
    if w != [] {
      assert w == [w[0]] + w[1..];
      SplitWord(w[1..]);
    }
  }

  /**
   * Splitting undoes joining newline-free pieces. With `JoinSplit` and
   * `SplitNoNewline`, `Split(s)` is the one sequence of newline-free pieces
   * whose `Join` is `s`.
   */
  lemma {:induction false} SplitJoin(pieces: seq<string>)
    requires |pieces| >= 1
    requires forall p :: p in pieces ==> '\n' !in p
    ensures Split(Join(pieces)) == pieces
    decreases |pieces|
  {
    if |pieces| == 1 {
      SplitWord(pieces[0]);
    } else {
      assert pieces[0] in pieces;
      assert forall p :: p in pieces[1..] ==> p in pieces;
      SplitJoin(pieces[1..]);
      SplitNamePrefix(pieces[0], Join(pieces[1..]));
      assert [pieces[0]] + pieces[1..] == pieces;
    }
  }

  /** The filter works piece by piece: it distributes over concatenation. */
  lemma {:induction false} NonEmptyAppend(a: seq<string>, b: seq<string>)
    ensures NonEmpty(a + b) == NonEmpty(a) + NonEmpty(b)
    decreases |a|
  {
    if a == [] {
      assert a + b == b;
    } else {
      assert (a + b)[0] == a[0] && (a + b)[1..] == a[1..] + b;
      NonEmptyAppend(a[1..], b);
    }
  }

  /** A single piece is kept exactly when it is not empty. */
  lemma NonEmptySingle(x: string)
    ensures NonEmpty([x]) == if x == [] then [] else [x]
  {
  }

  // ---------------------------------------------------------------------
  // process_ledger_output

  /**
   * `process_ledger_output`: the non-empty lines of the output, or the
   * decoding error.
   */
  function ProcessLedgerOutput(stdout: seq<byte>): (r: Result<seq<string>, Utf8Error>)
    ensures r.Ok? <==> Decode(stdout).Ok?
    ensures r.Ok? ==> forall line :: line in r.value ==> line != [] && '\n' !in line
    ensures r.Ok? ==> Concat(r.value) == DropNewlines(Decode(stdout).value)
  {
    match Decode(stdout)
    case Err(e) => Err(e)
    case Ok(s) =>
      SplitNoNewline(s);
      ConcatSplit(s);
      ConcatNonEmpty(Split(s));
      Ok(NonEmpty(Split(s)))
  }

  /**
   * The result is pinned by any cutting of the text into newline-free pieces:
   * it is those pieces with the empty ones dropped, in order.
   */
  lemma ProcessLedgerOutputLines(stdout: seq<byte>, pieces: seq<string>)
    requires Decode(stdout).Ok?
    requires |pieces| >= 1 && Join(pieces) == Decode(stdout).value
    requires forall p :: p in pieces ==> '\n' !in p
    ensures ProcessLedgerOutput(stdout) == Ok(NonEmpty(pieces))
  {
    SplitJoin(pieces);
  }

  /** The output of a list of names, one per line, gives the names back. */
  lemma {:induction false} NamesRoundTrip(names: seq<string>)
    requires forall n :: n in names ==> n != [] && '\n' !in n
    ensures ProcessLedgerOutput(Encode(Lines(names))) == Ok(names)
  {
    DecodeEncode(Lines(names));
    SplitLines(names);
  }

  /** Each name followed by a newline, as `ledger accounts` prints them. */
  function Lines(names: seq<string>): string {
    if names == [] then [] else names[0] + "\n" + Lines(names[1..])
  }

  lemma {:induction false} SplitLines(names: seq<string>)
    requires forall n :: n in names ==> n != [] && '\n' !in n
    ensures NonEmpty(Split(Lines(names))) == names
  {
    if names == [] {
    } else {
      assert forall n :: n in names[1..] ==> n in names;
      SplitLines(names[1..]);
      SplitNamePrefix(names[0], Lines(names[1..]));
      assert names == [names[0]] + names[1..];
    }
  }

  /** A newline-free word followed by a newline becomes one piece of its own. */
  lemma {:induction false} SplitNamePrefix(name: string, rest: string)
    requires '\n' !in name
    ensures Split(name + "\n" + rest) == [name] + Split(rest)
    decreases |name|
  {
    if name == [] {
      assert name + "\n" + rest == ['\n'] + rest;
    } else {
      assert (name + "\n" + rest)[1..] == name[1..] + "\n" + rest;
      SplitNamePrefix(name[1..], rest);
      assert [name[0]] + name[1..] == name;
    }
  }
}
