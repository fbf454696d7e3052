/**
 * Line breaks in text, shared by the rendering of a transaction and the
 * reading of `ledger accounts` output.
 */
module Text {
  /** The number of `\n` characters in `s`. */
  function NewlineCount(s: string): nat {
    if s == [] then 0 else (if s[0] == '\n' then 1 else 0) + NewlineCount(s[1..])
  }

  lemma {:induction false} NewlineCountAppend(s: string, t: string)
    ensures NewlineCount(s + t) == NewlineCount(s) + NewlineCount(t)
  {
    if s == [] {
      assert s + t == t;
    } else {
      assert (s + t)[0] == s[0] && (s + t)[1..] == s[1..] + t;
      NewlineCountAppend(s[1..], t);
    }
  }

  /** A text holds no newline exactly when its count is zero. */
  lemma {:induction false} NewlineCountZero(s: string)
    ensures NewlineCount(s) == 0 <==> '\n' !in s
  {
    if s != [] {
      assert s == [s[0]] + s[1..];
      NewlineCountZero(s[1..]);
    }
  }
}
