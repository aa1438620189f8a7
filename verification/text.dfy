/**
 * The few Python string operations the daily-report script relies on,
 * with the semantics CPython gives them: `str.startswith`, `str.split`
 * with an explicit one-character separator, `str.strip()` with no
 * argument, and `str.replace`.
 */
module Text {

  /** `s.startswith(prefix)` */
  predicate StartsWith(s: string, prefix: string) {
    |prefix| <= |s| && s[..|prefix|] == prefix
  }

  /** `pat` occurs in `s` at position `i`. */
  predicate OccursAt(s: string, pat: string, i: int) {
    0 <= i <= |s| - |pat| && s[i..i + |pat|] == pat
  }

  /** `pat in s` */
  predicate Contains(s: string, pat: string) {
    exists i | 0 <= i <= |s| - |pat| :: OccursAt(s, pat, i)
  }

  /** The first position of `c` in `s` (`s.index(c)`). */
  function FirstIndex(s: string, c: char): (i: nat)
    requires c in s
    ensures i < |s| && s[i] == c && c !in s[..i]
  {
    if s[0] == c then 0
    else
      var j := FirstIndex(s[1..], c);
      assert s[..j + 1] == [s[0]] + s[1..][..j];
      j + 1
  }

  lemma FirstIndexIs(s: string, c: char, i: nat)
    requires i < |s| && s[i] == c && c !in s[..i]
    ensures FirstIndex(s, c) == i
  {
  }

  /** `sep.join(pieces)`, for a one-character separator. */
  function Join(pieces: seq<string>, sep: char): string
    requires |pieces| >= 1
  {
    if |pieces| == 1 then pieces[0] else pieces[0] + [sep] + Join(pieces[1..], sep)
  }

  /**
   * `s.split(sep)`: the pieces between the occurrences of `sep`. There is
   * always at least one piece (`"".split("\n") == [""]`), and a trailing
   * separator yields a trailing empty piece.
   */
  function Split(s: string, sep: char): (pieces: seq<string>)
    ensures |pieces| >= 1
    ensures forall k :: 0 <= k < |pieces| ==> sep !in pieces[k]
    decreases |s|
  {
    if sep !in s then [s]
    else
      var i := FirstIndex(s, sep);
      [s[..i]] + Split(s[i + 1..], sep)
  }

  /** Joining the pieces of a split gives the text back. */
  lemma {:induction false} JoinSplit(s: string, sep: char)
    ensures Join(Split(s, sep), sep) == s
    decreases |s|
  {
    if sep in s {
      var i := FirstIndex(s, sep);
      var rest := Split(s[i + 1..], sep);
      JoinSplit(s[i + 1..], sep);
      assert ([s[..i]] + rest)[1..] == rest;
      assert s == s[..i] + [sep] + s[i + 1..];
    }
  }

  /** Splitting a joined list gives the list back when no piece holds the separator. */
  lemma {:induction false} SplitJoin(pieces: seq<string>, sep: char)
    requires |pieces| >= 1
    requires forall k :: 0 <= k < |pieces| ==> sep !in pieces[k]
    ensures Split(Join(pieces, sep), sep) == pieces
  {
    if |pieces| > 1 {
      SplitJoin(pieces[1..], sep);
      SplitCons(pieces[0], Join(pieces[1..], sep), sep);
      assert pieces == [pieces[0]] + pieces[1..];
    }
  }

  /** A separator-free head followed by the separator splits off as the first piece. */
  lemma SplitCons(head: string, tail: string, sep: char)
    requires sep !in head
    ensures Split(head + [sep] + tail, sep) == [head] + Split(tail, sep)
  {
    var s := head + [sep] + tail;
    assert s[|head|] == sep && s[..|head|] == head;
    FirstIndexIs(s, sep, |head|);
    assert s[|head| + 1..] == tail;
  }

  /** `s.split(sep, 1)`: the text before the first separator and the rest, or `s` alone. */
  function SplitOnce(s: string, sep: char): (parts: seq<string>)
    ensures |parts| == (if sep in s then 2 else 1)
    ensures sep !in parts[0]
    ensures Join(parts, sep) == s
  {
    if sep !in s then [s]
    else
      var i := FirstIndex(s, sep);
      assert s == s[..i] + [sep] + s[i + 1..];
      [s[..i], s[i + 1..]]
  }

  /** A character absent from a joined text is absent from every piece. */
  lemma {:induction false} JoinPiecesWithout(pieces: seq<string>, sep: char, c: char)
    requires |pieces| >= 1 && c !in Join(pieces, sep)
    ensures forall k :: 0 <= k < |pieces| ==> c !in pieces[k]
  {
    if |pieces| > 1 {
      JoinPiecesWithout(pieces[1..], sep, c);
      forall k | 1 <= k < |pieces| ensures c !in pieces[k] {
        assert pieces[k] == pieces[1..][k - 1];
      }
    }
  }

  /** Joined lines followed by more text split into those lines and the pieces of the rest. */
  lemma {:induction false} SplitJoinThen(pieces: seq<string>, tail: string, sep: char)
    requires |pieces| >= 1
    requires forall k :: 0 <= k < |pieces| ==> sep !in pieces[k]
    ensures Split(Join(pieces, sep) + [sep] + tail, sep) == pieces + Split(tail, sep)
  {
    if |pieces| == 1 {
      SplitCons(pieces[0], tail, sep);
    } else {
      var rest := Join(pieces[1..], sep);
      var more := rest + [sep] + tail;
      calc {
        Split(Join(pieces, sep) + [sep] + tail, sep);
        { assert Join(pieces, sep) + [sep] + tail == pieces[0] + [sep] + more; }
        Split(pieces[0] + [sep] + more, sep);
        { SplitCons(pieces[0], more, sep); }
        [pieces[0]] + Split(more, sep);
        { SplitJoinThen(pieces[1..], tail, sep); }
        [pieces[0]] + (pieces[1..] + Split(tail, sep));
        { assert pieces == [pieces[0]] + pieces[1..]; }
        pieces + Split(tail, sep);
      }
    }
  }

  /** Each piece followed by the separator (the lines of a text that ends with a line break). */
  function Terminated(pieces: seq<string>, sep: char): string
  {
    if pieces == [] then "" else pieces[0] + [sep] + Terminated(pieces[1..], sep)
  }

  /** Separator-terminated pieces followed by more text split into those pieces and the pieces of the rest. */
  lemma {:induction false} SplitTerminated(pieces: seq<string>, tail: string, sep: char)
    requires forall k :: 0 <= k < |pieces| ==> sep !in pieces[k]
    ensures Split(Terminated(pieces, sep) + tail, sep) == pieces + Split(tail, sep)
  {
    if pieces != [] {
      var more := Terminated(pieces[1..], sep) + tail;
      calc {
        Split(Terminated(pieces, sep) + tail, sep);
        { assert Terminated(pieces, sep) + tail == pieces[0] + [sep] + more; }
        Split(pieces[0] + [sep] + more, sep);
        { SplitCons(pieces[0], more, sep); }
        [pieces[0]] + Split(more, sep);
        { SplitTerminated(pieces[1..], tail, sep); }
        [pieces[0]] + (pieces[1..] + Split(tail, sep));
        { assert pieces == [pieces[0]] + pieces[1..]; }
        pieces + Split(tail, sep);
      }
    } else {
      assert Terminated(pieces, sep) + tail == tail;
    }
  }

  lemma {:induction false} TerminatedAppend(a: seq<string>, b: seq<string>, sep: char)
    ensures Terminated(a + b, sep) == Terminated(a, sep) + Terminated(b, sep)
  {
    if a != [] {
      assert (a + b)[1..] == a[1..] + b;
      TerminatedAppend(a[1..], b, sep);
    } else {
      assert a + b == b;
    }
  }

  lemma {:induction false} TerminatedJoin(pieces: seq<string>, sep: char)
    requires |pieces| >= 1
    ensures Terminated(pieces, sep) == Join(pieces, sep) + [sep]
  {
    if |pieces| > 1 {
      TerminatedJoin(pieces[1..], sep);
    }
  }

  /** The characters `str.isspace()` accepts, which `str.strip()` removes. */
  predicate IsSpace(c: char) {
    || c == ' '
    || '\t' <= c <= '\r'
    || '\U{001C}' <= c <= '\U{001F}'
    || c == '\U{0085}' || c == '\U{00A0}' || c == '\U{1680}'
    || '\U{2000}' <= c <= '\U{200A}'
    || c == '\U{2028}' || c == '\U{2029}' || c == '\U{202F}'
    || c == '\U{205F}' || c == '\U{3000}'
  }

  /** `s.lstrip()` */
  function TrimStart(s: string): (r: string)
    ensures |r| <= |s| && r == s[|s| - |r|..]
    ensures forall k :: 0 <= k < |s| - |r| ==> IsSpace(s[k])
    ensures r != [] ==> !IsSpace(r[0])
  {
    if s != [] && IsSpace(s[0]) then TrimStart(s[1..]) else s
  }

  /** `s.rstrip()` */
  function TrimEnd(s: string): (r: string)
    ensures |r| <= |s| && r == s[..|r|]
    ensures forall k :: |r| <= k < |s| ==> IsSpace(s[k])
    ensures r != [] ==> !IsSpace(r[|r| - 1])
  {
    if s != [] && IsSpace(s[|s| - 1]) then TrimEnd(s[..|s| - 1]) else s
  }

  /**
   * `s.strip()`: the window of `s` left once the whitespace margins on both
   * sides are dropped. The contract determines the result: it starts and
   * ends with a non-space character, or is empty exactly when `s` is all
   * whitespace.
   */
  function Strip(s: string): (r: string)
    ensures |r| <= |s|
    ensures r != [] ==> !IsSpace(r[0]) && !IsSpace(r[|r| - 1])
    ensures exists i :: StripWindow(s, i, r)
  {
    var t := TrimStart(s);
    var r := TrimEnd(t);
    assert StripWindow(s, |s| - |t|, r);
    r
  }

  /** Stripping never introduces a character: a text without `c` strips to a text without `c`. */
  lemma StripWithout(s: string, c: char)
    requires c !in s
    ensures c !in Strip(s)
  {
    var i :| StripWindow(s, i, Strip(s));
  }

  lemma {:induction false} TrimStartPadding(pre: string, x: string)
    requires forall k :: 0 <= k < |pre| ==> IsSpace(pre[k])
    requires x != [] ==> !IsSpace(x[0])
    ensures TrimStart(pre + x) == x
  {
    if pre != [] {
      assert (pre + x)[1..] == pre[1..] + x;
      TrimStartPadding(pre[1..], x);
    } else {
      assert pre + x == x;
    }
  }

  lemma {:induction false} TrimEndPadding(x: string, post: string)
    requires forall k :: 0 <= k < |post| ==> IsSpace(post[k])
    requires x != [] ==> !IsSpace(x[|x| - 1])
    ensures TrimEnd(x + post) == x
  {
    if post != [] {
      var init := post[..|post| - 1];
      assert (x + post)[..|x + post| - 1] == x + init;
      TrimEndPadding(x, init);
    } else {
      assert x + post == x;
    }
  }

  /** Stripping a value padded with whitespace gives the value back. */
  lemma StripPadding(pre: string, v: string, post: string)
    requires forall k :: 0 <= k < |pre| ==> IsSpace(pre[k])
    requires forall k :: 0 <= k < |post| ==> IsSpace(post[k])
    requires v != [] ==> !IsSpace(v[0]) && !IsSpace(v[|v| - 1])
    ensures Strip(pre + (v + post)) == v
  {
    if v == [] {
      assert pre + (v + post) == (pre + post) + [];
      TrimStartPadding(pre + post, []);
      TrimEndPadding([], []);
    } else {
      TrimStartPadding(pre, v + post);
      TrimEndPadding(v, post);
    }
  }

  /** `r` sits at position `i` of `s` with nothing but whitespace around it. */
  predicate StripWindow(s: string, i: int, r: string) {
    && OccursAt(s, r, i)
    && (forall k :: 0 <= k < i ==> IsSpace(s[k]))
    && (forall k :: i + |r| <= k < |s| ==> IsSpace(s[k]))
  }

  /**
   * `s.replace(pat, rep)`: one left-to-right pass that replaces each
   * leftmost, non-overlapping occurrence of `pat`. Never longer than `s`
   * when the replacement is no longer than the pattern.
   */
  function Replace(s: string, pat: string, rep: string): (r: string)
    requires pat != []
    ensures |rep| <= |pat| ==> |r| <= |s|
    decreases |s|
  {
    if StartsWith(s, pat) then rep + Replace(s[|pat|..], pat, rep)
    else if s == [] then []
    else [s[0]] + Replace(s[1..], pat, rep)
  }

  /** A text without the pattern comes out of `Replace` unchanged. */
  lemma {:induction false} ReplaceNoMatch(s: string, pat: string, rep: string)
    requires pat != [] && !Contains(s, pat)
    ensures Replace(s, pat, rep) == s
    decreases |s|
  {
    if s != [] {
      assert !StartsWith(s, pat) by { assert !OccursAt(s, pat, 0); }
      assert !Contains(s[1..], pat) by {
        forall i | OccursAt(s[1..], pat, i)
          ensures false
        {
          assert s[1..][i..i + |pat|] == s[i + 1..i + 1 + |pat|];
          assert OccursAt(s, pat, i + 1);
        }
      }
      ReplaceNoMatch(s[1..], pat, rep);
    }
  }

  /** With a strictly shorter replacement, every occurrence shortens the text. */
  lemma {:induction false} ReplaceMatchShrinks(s: string, pat: string, rep: string)
    requires pat != [] && |rep| < |pat| && Contains(s, pat)
    ensures |Replace(s, pat, rep)| < |s|
    decreases |s|
  {
    if !StartsWith(s, pat) {
      var i :| 0 <= i <= |s| - |pat| && OccursAt(s, pat, i);
      assert i != 0 by { assert s[..|pat|] == s[0..0 + |pat|]; }
      assert s[1..][i - 1..i - 1 + |pat|] == s[i..i + |pat|];
      assert OccursAt(s[1..], pat, i - 1);
      ReplaceMatchShrinks(s[1..], pat, rep);
    }
  }

  /** With a strictly shorter replacement, `Replace` is the identity exactly on texts without the pattern. */
  lemma ReplaceUnchangedIff(s: string, pat: string, rep: string)
    requires pat != [] && |rep| < |pat|
    ensures Replace(s, pat, rep) == s <==> !Contains(s, pat)
  {
    if Contains(s, pat) {
      ReplaceMatchShrinks(s, pat, rep);
    } else {
      ReplaceNoMatch(s, pat, rep);
    }
  }

  /** `s` with every `c` removed: what is left of a text when one character is ignored. */
  function Erase(s: string, c: char): (r: string)
    ensures c !in r && |r| <= |s|
  {
    if s == [] then [] else (if s[0] == c then [] else [s[0]]) + Erase(s[1..], c)
  }

  lemma {:induction false} EraseAppend(a: string, b: string, c: char)
    ensures Erase(a + b, c) == Erase(a, c) + Erase(b, c)
  {
    if a != [] {
      assert (a + b)[1..] == a[1..] + b;
      EraseAppend(a[1..], b, c);
    } else {
      assert a + b == b;
    }
  }

  /**
   * When the pattern and its replacement differ only in occurrences of `c`,
   * `Replace` keeps every other character, in order.
   */
  lemma {:induction false} ReplaceKeepsOthers(s: string, pat: string, rep: string, c: char)
    requires pat != [] && Erase(pat, c) == Erase(rep, c)
    ensures Erase(Replace(s, pat, rep), c) == Erase(s, c)
    decreases |s|
  {
    if StartsWith(s, pat) {
      ReplaceKeepsOthers(s[|pat|..], pat, rep, c);
      EraseAppend(rep, Replace(s[|pat|..], pat, rep), c);
      assert s == pat + s[|pat|..];
      EraseAppend(pat, s[|pat|..], c);
    } else if s != [] {
      ReplaceKeepsOthers(s[1..], pat, rep, c);
      EraseAppend([s[0]], Replace(s[1..], pat, rep), c);
      assert s == [s[0]] + s[1..];
      EraseAppend([s[0]], s[1..], c);
    }
  }
}
