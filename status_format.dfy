/**
 * `formatStatus`, shared by the seller portal, the admin panel and the
 * buyer dashboard: `status.split("-")`, each piece with its first character
 * upper-cased (`charAt(0).toUpperCase() + slice(1)`), joined with " ".
 */
module StatusFormat {
  import opened JsStrings

  /** `s.split(sep)` for a one-character separator: always at least one piece. */
  function Split(s: string, sep: char): (pieces: seq<string>)
    ensures |pieces| >= 1
  {
    if s == [] then [""]
    else
      var rest := Split(s[1..], sep);
      if s[0] == sep then [""] + rest else [[s[0]] + rest[0]] + rest[1..]
  }

  /** `word.charAt(0).toUpperCase() + word.slice(1)`; the empty word stays empty. */
  function Capitalize(w: string): (r: string)
    ensures |r| == |w|
  {
    if w == [] then [] else [UpperChar(w[0])] + w[1..]
  }

  /** `.map(capitalize)`. */
  function CapitalizeAll(ws: seq<string>): (r: seq<string>)
    ensures |r| == |ws|
  {
    if ws == [] then [] else [Capitalize(ws[0])] + CapitalizeAll(ws[1..])
  }

  /** `.join(sep)`. */
  function Join(ws: seq<string>, sep: char): string
  {
    if ws == [] then ""
    else if |ws| == 1 then ws[0]
    else ws[0] + [sep] + Join(ws[1..], sep)
  }

  function FormatStatus(status: string): string
  {
    Join(CapitalizeAll(Split(status, '-')), ' ')
  }

  /**
   * The same text written character by character: '-' becomes ' ', and a
   * character is upper-cased when it starts the text or follows a '-'.
   */
  function Titled(s: string, startOfWord: bool): (r: string)
    ensures |r| == |s|
  {
    if s == [] then []
    else if s[0] == '-' then [' '] + Titled(s[1..], true)
    else [if startOfWord then UpperChar(s[0]) else s[0]] + Titled(s[1..], false)
  }

  /** How many times `c` occurs in `s`. */
  function Occurrences(s: string, c: char): nat
  {
    if s == [] then 0 else (if s[0] == c then 1 else 0) + Occurrences(s[1..], c)
  }

  lemma JoinPrepend(c: char, w: string, ws: seq<string>, sep: char)
    ensures Join([[c] + w] + ws, sep) == [c] + Join([w] + ws, sep)
  {
    if ws != [] {
      assert ([[c] + w] + ws)[1..] == ws;
      assert ([w] + ws)[1..] == ws;
    }
  }

  /** The pieces, the first capitalised only at the start of a word, joined: the character-wise form. */
  lemma {:induction false} JoinSplitIsTitled(s: string, startOfWord: bool)
    ensures var pieces := Split(s, '-');
      Join([if startOfWord then Capitalize(pieces[0]) else pieces[0]] + CapitalizeAll(pieces[1..]), ' ')
        == Titled(s, startOfWord)
  {
    if s != [] {
      var t := s[1..];
      var rest := Split(t, '-');
      JoinSplitIsTitled(t, s[0] == '-');
      if s[0] == '-' {
        assert Split(s, '-') == [""] + rest;
        assert CapitalizeAll(rest) == [Capitalize(rest[0])] + CapitalizeAll(rest[1..]);
        assert ([""] + CapitalizeAll(rest))[1..] == CapitalizeAll(rest);
      } else {
        var first := [s[0]] + rest[0];
        assert Split(s, '-') == [first] + rest[1..];
        var c := if startOfWord then UpperChar(s[0]) else s[0];
        assert (if startOfWord then Capitalize(first) else first) == [c] + rest[0];
        JoinPrepend(c, rest[0], CapitalizeAll(rest[1..]), ' ');
      }
    }
  }

  /** `formatStatus` is the character-wise form starting at a word. */
  lemma FormatStatusIsTitled(status: string)
    ensures FormatStatus(status) == Titled(status, true)
  {
    var pieces := Split(status, '-');
    JoinSplitIsTitled(status, true);
    assert CapitalizeAll(pieces) == [Capitalize(pieces[0])] + CapitalizeAll(pieces[1..]);
  }

  lemma {:induction false} TitledPointwise(s: string, startOfWord: bool)
    ensures forall i | 0 <= i < |s| && s[i] == '-' :: Titled(s, startOfWord)[i] == ' '
    ensures forall i | 0 <= i < |s| && s[i] != '-' ::
      Titled(s, startOfWord)[i] == if (if i == 0 then startOfWord else s[i - 1] == '-') then UpperChar(s[i]) else s[i]
  {
    if s != [] {
      TitledPointwise(s[1..], s[0] == '-');
      var r := Titled(s, startOfWord);
      assert forall i | 1 <= i < |s| :: r[i] == Titled(s[1..], s[0] == '-')[i - 1] && s[i] == s[1..][i - 1];
    }
  }

  /**
   * Character by character: the output is as long as the input, each '-'
   * becomes a space, the first character and each one after a '-' is
   * upper-cased, and every other character is kept.
   */
  lemma FormatStatusPointwise(status: string)
    ensures |FormatStatus(status)| == |status|
    ensures forall i | 0 <= i < |status| && status[i] == '-' :: FormatStatus(status)[i] == ' '
    ensures forall i | 0 <= i < |status| && status[i] != '-' ::
      FormatStatus(status)[i] == if i == 0 || status[i - 1] == '-' then UpperChar(status[i]) else status[i]
  {
    FormatStatusIsTitled(status);
    TitledPointwise(status, true);
  }

  /** The formatted text contains no hyphen. */
  lemma FormatStatusHasNoHyphen(status: string)
    ensures forall i | 0 <= i < |FormatStatus(status)| :: FormatStatus(status)[i] != '-'
  {
    FormatStatusPointwise(status);
    forall i | 0 <= i < |FormatStatus(status)| ensures FormatStatus(status)[i] != '-' {
      var c := status[i];
      if c == '-' {
        assert FormatStatus(status)[i] == ' ';
      } else {
        assert UpperChar(c) != '-';
        assert FormatStatus(status)[i] == if i == 0 || status[i - 1] == '-' then UpperChar(c) else c;
      }
    }
  }

  /** There is one piece more than there are hyphens. */
  lemma {:induction false} SplitPieceCount(s: string, sep: char)
    ensures |Split(s, sep)| == Occurrences(s, sep) + 1
  {
    if s != [] {
      SplitPieceCount(s[1..], sep);
    }
  }

  lemma {:induction false} TitledWord(w: string, startOfWord: bool)
    requires '-' !in w
    ensures Titled(w, startOfWord) == if startOfWord then Capitalize(w) else w
  {
    if w != [] {
      TitledWord(w[1..], false);
      assert w == [w[0]] + w[1..];
    }
  }

  lemma {:induction false} TitledAfterWord(w: string, rest: string, startOfWord: bool)
    requires '-' !in w
    ensures Titled(w + "-" + rest, startOfWord) == Titled(w, startOfWord) + " " + Titled(rest, true)
  {
    if w != [] {
      TitledAfterWord(w[1..], rest, false);
      assert (w + "-" + rest)[1..] == w[1..] + "-" + rest;
    } else {
      assert w + "-" + rest == ['-'] + rest;
    }
  }

  /** Two hyphen-free words joined by a hyphen become the two words capitalised, joined by a space. */
  lemma FormatTwoWords(a: string, b: string)
    requires '-' !in a && '-' !in b
    ensures FormatStatus(a + "-" + b) == Capitalize(a) + " " + Capitalize(b)
  {
    FormatStatusIsTitled(a + "-" + b);
    TitledAfterWord(a, b, true);
    TitledWord(a, true);
    TitledWord(b, true);
  }

  /** "pending-approval" reads "Pending Approval". */
  lemma PendingApproval(status: string)
    requires status == "pending-approval"
    ensures FormatStatus(status) == "Pending Approval"
  {
    var a, b := "pending", "approval";
    assert status == a + "-" + b;
    FormatTwoWords(a, b);
    assert Capitalize(a) == "Pending";
    assert Capitalize(b) == "Approval";
  }
}
