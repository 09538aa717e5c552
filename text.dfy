/**
 * The few java.lang.String and java.lang.Long operations the server relies on:
 * `startsWith`, `split(" ")`, and the decimal text of a `long`, together with the
 * inverses used to state what they preserve.
 */
module Text {
  import opened Wrappers

  /** `s.startsWith(prefix)`. */
  predicate StartsWith(s: string, prefix: string) {
    |prefix| <= |s| && s[..|prefix|] == prefix
  }

  /** The words of `ws` with a single space between neighbours (the inverse of splitting). */
  function JoinWords(ws: seq<string>): string {
    if ws == [] then "" else if |ws| == 1 then ws[0] else ws[0] + " " + JoinWords(ws[1..])
  }

  /** Every stretch of `s` between two spaces, empty stretches included. */
  function Pieces(s: string): (ws: seq<string>)
    ensures |ws| >= 1
    ensures forall i :: 0 <= i < |ws| ==> ' ' !in ws[i]
    ensures s != [] && s[0] != ' ' ==> ws[0] != ""
    ensures JoinWords(ws) == s
  {
    if s == [] then [""]
    else
      var rest := Pieces(s[1..]);
      if s[0] == ' ' then
        [""] + rest
      else
        assert |rest| >= 2 ==> JoinWords(rest) == rest[0] + " " + JoinWords(rest[1..]);
        [[s[0]] + rest[0]] + rest[1..]
  }

  /** Drops the empty strings at the end of `ws`, as `String.split` does with limit 0. */
  function DropTrailingEmpty(ws: seq<string>): (r: seq<string>)
    ensures |r| <= |ws| && r == ws[..|r|]
    ensures r != [] ==> r[|r| - 1] != ""
    ensures forall i :: |r| <= i < |ws| ==> ws[i] == ""
  {
    if ws != [] && ws[|ws| - 1] == "" then DropTrailingEmpty(ws[..|ws| - 1]) else ws
  }

  /**
   * `s.split(" ")`: a string without a space splits into itself; otherwise the pieces
   * between spaces, with the empty pieces at the end removed (a leading empty piece stays).
   */
  function Split(s: string): (ws: seq<string>)
    ensures forall i :: 0 <= i < |ws| ==> ' ' !in ws[i]
    ensures s != [] && s[0] != ' ' ==> |ws| >= 1 && ws[0] != ""
  {
    if ' ' !in s then [s] else DropTrailingEmpty(Pieces(s))
  }

  lemma {:induction false} PiecesOfWordThen(w: string, t: string)
    requires ' ' !in w
    ensures Pieces(w + t) == [w + Pieces(t)[0]] + Pieces(t)[1..]
    decreases |w|
  {
    if w == [] {
      assert w + t == t && w + Pieces(t)[0] == Pieces(t)[0];
    } else {
      assert (w + t)[0] == w[0] && (w + t)[1..] == w[1..] + t;
      PiecesOfWordThen(w[1..], t);
      assert [w[0]] + (w[1..] + Pieces(t)[0]) == w + Pieces(t)[0];
    }
  }

  lemma {:induction false} PiecesOfJoin(ws: seq<string>)
    requires ws != []
    requires forall i :: 0 <= i < |ws| ==> ' ' !in ws[i]
    ensures Pieces(JoinWords(ws)) == ws
  {
    if |ws| == 1 {
      PiecesOfWordThen(ws[0], "");
      assert ws[0] + "" == ws[0];
    } else {
      var tail := JoinWords(ws[1..]);
      assert ws[0] + " " + tail == ws[0] + (" " + tail);
      PiecesOfWordThen(ws[0], " " + tail);
      assert (" " + tail)[1..] == tail;
      PiecesOfJoin(ws[1..]);
      assert Pieces(" " + tail) == [""] + ws[1..];
      assert ws[0] + "" == ws[0];
    }
  }

  /** Joining one more word appends a space and that word. */
  lemma {:induction false} JoinWordsSnoc(ws: seq<string>, w: string)
    requires ws != []
    ensures JoinWords(ws + [w]) == JoinWords(ws) + " " + w
  {
    if |ws| == 1 {
      assert ws + [w] == [ws[0], w];
    } else {
      assert (ws + [w])[1..] == ws[1..] + [w];
      JoinWordsSnoc(ws[1..], w);
    }
  }

  lemma {:induction false} NoSpaceInSingleWord(ws: seq<string>)
    requires |ws| >= 1
    requires forall i :: 0 <= i < |ws| ==> ' ' !in ws[i]
    ensures (' ' in JoinWords(ws)) <==> |ws| >= 2
  {
    if |ws| >= 2 {
      assert JoinWords(ws)[|ws[0]|] == ' ';
    }
  }

  /** Splitting undoes joining for space-free words whose last word is not empty. */
  lemma SplitJoinWords(ws: seq<string>)
    requires |ws| >= 1
    requires forall i :: 0 <= i < |ws| ==> ' ' !in ws[i]
    requires ws[|ws| - 1] != ""
    ensures Split(JoinWords(ws)) == ws
  {
    NoSpaceInSingleWord(ws);
    if |ws| >= 2 {
      PiecesOfJoin(ws);
    }
  }

  predicate IsDigit(ch: char) {
    '0' <= ch <= '9'
  }

  predicate AllDigits(s: string) {
    forall i :: 0 <= i < |s| ==> IsDigit(s[i])
  }

  function DigitChar(d: nat): (ch: char)
    requires d < 10
    ensures IsDigit(ch)
  {
    ('0' as int + d) as char
  }

  function DigitValue(ch: char): nat
    requires IsDigit(ch)
  {
    ch as int - '0' as int
  }

  /** `Long.toString(n)` for n >= 0: decimal digits without leading zeros. */
  function NatText(n: nat): (s: string)
    ensures s != [] && AllDigits(s)
  {
    if n < 10 then [DigitChar(n)] else NatText(n / 10) + [DigitChar(n % 10)]
  }

  /** `Long.toString(i)`: a minus sign before the digits of a negative value. */
  function IntText(i: int): (s: string)
    ensures s != [] && ' ' !in s
  {
    if i < 0 then "-" + NatText(-i) else NatText(i)
  }

  /** The value of a string of decimal digits, most significant first. */
  function DigitsValue(s: string): nat
    requires AllDigits(s)
  {
    if s == [] then 0 else DigitsValue(s[..|s| - 1]) * 10 + DigitValue(s[|s| - 1])
  }

  function ParseNat(s: string): Option<nat> {
    if s != [] && AllDigits(s) then Some(DigitsValue(s)) else None
  }

  /** Reads a decimal `long` as `Long.toString` writes it. */
  function ParseInt(s: string): Option<int> {
    if s != [] && s[0] == '-' then
      match ParseNat(s[1..])
      case Some(n) => Some(-(n as int))
      case None => None
    else
      ParseNat(s)
  }

  lemma {:induction false} NatTextValue(n: nat)
    ensures DigitsValue(NatText(n)) == n
  {
    if n >= 10 {
      var s := NatText(n);
      assert s[..|s| - 1] == NatText(n / 10);
      NatTextValue(n / 10);
    }
  }

  /** Reading back the text of a `long` gives the same value. */
  lemma IntTextRoundTrip(i: int)
    ensures ParseInt(IntText(i)) == Some(i)
  {
    if i < 0 {
      assert IntText(i)[1..] == NatText(-i);
      NatTextValue(-i);
    } else {
      NatTextValue(i);
    }
  }
}
