/**
 * The text operations the block compiler applies to SQL fragments:
 * Python's `str.strip()`, `str.split()` with no separator,
 * `' '.join(...)`, and list slicing `xs[a:b]`.
 */
module Text {

  /**
   * Python 2's `unicode.isspace` for one character (Unicode 5.2 data, so
   * U+180E MONGOLIAN VOWEL SEPARATOR is still whitespace). The template
   * source is decoded before it is stripped and split, so this is the set
   * `strip()` and `split()` work with.
   */
  predicate IsSpace(c: char)
    ensures c as int < 0x80 ==>
              (IsSpace(c) <==> c == ' ' || 0x09 <= c as int <= 0x0D || 0x1C <= c as int <= 0x1F)
    ensures c as int == 0x180E || c as int == 0x3000 ==> IsSpace(c)
    ensures c as int == 0x200B || c as int == 0xFEFF ==> !IsSpace(c)
  {
    var n := c as int;
    || n == 0x20 || 0x09 <= n <= 0x0D || 0x1C <= n <= 0x1F
    || n == 0x85 || n == 0xA0 || n == 0x1680 || n == 0x180E || 0x2000 <= n <= 0x200A
    || n == 0x2028 || n == 0x2029 || n == 0x202F || n == 0x205F || n == 0x3000
  }

  predicate AllSpace(s: string) {
    forall i :: 0 <= i < |s| ==> IsSpace(s[i])
  }

  /** Neither the first nor the last character is whitespace. */
  predicate NoEdgeSpace(s: string) {
    |s| > 0 ==> !IsSpace(s[0]) && !IsSpace(s[|s| - 1])
  }

  /** A word as `str.split()` yields it: non-empty, no whitespace. */
  predicate IsWord(w: string) {
    |w| > 0 && forall i :: 0 <= i < |w| ==> !IsSpace(w[i])
  }

  /**
   * Normal form of `' '.join(s.split())`: no whitespace at either end,
   * no two whitespace characters in a row, and every whitespace
   * character a plain space.
   */
  predicate Collapsed(s: string) {
    && NoEdgeSpace(s)
    && (forall i :: 0 <= i < |s| - 1 && IsSpace(s[i]) ==> !IsSpace(s[i + 1]))
    && (forall i :: 0 <= i < |s| && IsSpace(s[i]) ==> s[i] == ' ')
  }

  // ---------------------------------------------------------------- strip

  /** The number of whitespace characters `s` starts with. */
  function LeadLen(s: string): (n: nat)
    ensures n <= |s|
    ensures forall k :: 0 <= k < n ==> IsSpace(s[k])
    ensures n == |s| || !IsSpace(s[n])
  {
    if s != [] && IsSpace(s[0]) then 1 + LeadLen(s[1..]) else 0
  }

  /** The number of whitespace characters `s` ends with. */
  function TrailLen(s: string): (n: nat)
    ensures n <= |s|
    ensures forall k :: |s| - n <= k < |s| ==> IsSpace(s[k])
    ensures n == |s| || !IsSpace(s[|s| - 1 - n])
  {
    if s != [] && IsSpace(s[|s| - 1]) then 1 + TrailLen(s[..|s| - 1]) else 0
  }

  /**
   * `s.strip()`: the infix of `s` left after removing the whitespace on
   * both sides; it starts and ends with a non-whitespace character.
   */
  function Strip(s: string): (r: string)
    ensures NoEdgeSpace(r)
    ensures exists i :: 0 <= i <= |s| - |r| && r == s[i..i + |r|]
                        && AllSpace(s[..i]) && AllSpace(s[i + |r|..])
  {
    var a := LeadLen(s);
    if a == |s| then
      assert AllSpace(s[..a]) && s[a..a] == [];
      []
    else
      var b := TrailLen(s);
      assert a < |s| - b;
      assert AllSpace(s[..a]) && AllSpace(s[|s| - b..]);
      s[a..|s| - b]
  }

  /** Stripping a string that has no edge whitespace changes nothing. */
  lemma StripNoEdge(s: string)
    requires NoEdgeSpace(s)
    ensures Strip(s) == s
  {
  }

  /** One stripped copy of each line, in order. */
  function StripLines(lines: seq<string>): (r: seq<string>)
    ensures |r| == |lines|
    ensures forall i :: 0 <= i < |r| ==> NoEdgeSpace(r[i])
    ensures forall i :: 0 <= i < |r| ==> r[i] == Strip(lines[i])
  {
    seq(|lines|, i requires 0 <= i < |lines| => Strip(lines[i]))
  }

  /** The stored lines are already stripped: stripping them again changes
      nothing. */
  lemma {:induction false} StripLinesIdempotent(lines: seq<string>)
    ensures StripLines(StripLines(lines)) == StripLines(lines)
  {
    var once := StripLines(lines);
    forall i | 0 <= i < |once| ensures Strip(once[i]) == once[i] {
      StripNoEdge(once[i]);
    }
  }

  // ---------------------------------------------------------- split, join

  /** Length of the leading run of non-whitespace characters. */
  function WordLen(s: string): (n: nat)
    ensures n <= |s|
    ensures forall i :: 0 <= i < n ==> !IsSpace(s[i])
    ensures n == |s| || IsSpace(s[n])
  {
    if s == [] || IsSpace(s[0]) then 0 else 1 + WordLen(s[1..])
  }

  /** `s.split()`: the maximal runs of non-whitespace characters, in order. */
  function Words(s: string): (ws: seq<string>)
    ensures forall i :: 0 <= i < |ws| ==> IsWord(ws[i])
    decreases |s|
  {
    if s == [] then []
    else if IsSpace(s[0]) then Words(s[1..])
    else
      var n := WordLen(s);
      [s[..n]] + Words(s[n..])
  }

  /**
   * `gaps[0] + ws[0] + gaps[1] + ... + ws[n - 1] + gaps[n]`: the words
   * `ws` with the text `gaps[k]` in front of word `k` and `gaps[n]` after
   * the last.
   */
  function Interleave(gaps: seq<string>, ws: seq<string>): string
    requires |gaps| == |ws| + 1
    decreases |ws|
  {
    if ws == [] then gaps[0] else gaps[0] + ws[0] + Interleave(gaps[1..], ws[1..])
  }

  /** Text put in front of the first gap goes in front of the whole. */
  lemma InterleaveHead(a: string, gaps: seq<string>, ws: seq<string>)
    requires |gaps| == |ws| + 1
    ensures Interleave([a + gaps[0]] + gaps[1..], ws) == a + Interleave(gaps, ws)
  {
    var g := [a + gaps[0]] + gaps[1..];
    assert g[1..] == gaps[1..];
  }

  /** The gaps of `sep.join` over `n` words: nothing outside, `sep` inside. */
  function JoinGaps(sep: string, n: nat): (g: seq<string>)
    ensures |g| == n + 1
  {
    if n == 0 then [""] else [""] + seq(n - 1, _ => sep) + [""]
  }

  /** `s` is the words `ws` interleaved with whitespace gaps, non-empty
      between two words. */
  predicate SplitsAs(s: string, gaps: seq<string>, ws: seq<string>) {
    && |gaps| == |ws| + 1
    && (forall k :: 0 <= k < |gaps| ==> AllSpace(gaps[k]))
    && (forall k :: 0 < k < |ws| ==> gaps[k] != [])
    && Interleave(gaps, ws) == s
  }

  /**
   * `s.split()` cuts `s` into its maximal non-whitespace runs: `s` is its
   * words interleaved with whitespace gaps, where the gaps between two
   * words are non-empty and the outer two may be empty. Since a word holds
   * no whitespace, this pins the words down.
   */
  lemma {:induction false} WordsSplit(s: string)
    ensures exists gaps :: SplitsAs(s, gaps, Words(s))
    decreases |s|
  {
    if s == [] {
      assert Words(s) == [] && AllSpace([""][0]);
      assert SplitsAs(s, [""], Words(s));
    } else if IsSpace(s[0]) {
      WordsSplit(s[1..]);
      var gaps :| SplitsAs(s[1..], gaps, Words(s[1..]));
      SplitsSpaceCons(s[0], s[1..], gaps, Words(s[1..]));
      assert [s[0]] + s[1..] == s;
      assert SplitsAs(s, [[s[0]] + gaps[0]] + gaps[1..], Words(s));
    } else {
      var n := WordLen(s);
      WordsSplit(s[n..]);
      var gaps :| SplitsAs(s[n..], gaps, Words(s[n..]));
      SplitsWordCons(s[..n], s[n..], gaps, Words(s[n..]));
      assert s[..n] + s[n..] == s;
      assert SplitsAs(s, [""] + gaps, Words(s));
    }
  }

  lemma SplitsSpaceCons(c: char, t: string, gaps: seq<string>, ws: seq<string>)
    requires IsSpace(c) && SplitsAs(t, gaps, ws)
    ensures SplitsAs([c] + t, [[c] + gaps[0]] + gaps[1..], ws)
  {
    var gaps' := [[c] + gaps[0]] + gaps[1..];
    InterleaveHead([c], gaps, ws);
    assert AllSpace(gaps'[0]) by {
      assert gaps'[0] == [c] + gaps[0];
    }
    assert forall k :: 0 < k < |gaps'| ==> gaps'[k] == gaps[k];
  }

  /** The first character of an interleaving whose first word is non-empty. */
  lemma InterleaveFirst(gaps: seq<string>, ws: seq<string>)
    requires |gaps| == |ws| + 1 && ws != [] && ws[0] != []
    ensures Interleave(gaps, ws) != []
    ensures Interleave(gaps, ws)[0] == if gaps[0] == [] then ws[0][0] else gaps[0][0]
  {
    assert Interleave(gaps, ws) == gaps[0] + ws[0] + Interleave(gaps[1..], ws[1..]);
  }

  lemma SplitsWordCons(w: string, rest: string, gaps: seq<string>, ws: seq<string>)
    requires IsWord(w) && (rest == [] || IsSpace(rest[0]))
    requires SplitsAs(rest, gaps, ws) && (ws != [] ==> IsWord(ws[0]))
    ensures SplitsAs(w + rest, [""] + gaps, [w] + ws)
  {
    if ws != [] {
      // `rest` starts with whitespace and its first word does not.
      InterleaveFirst(gaps, ws);
      assert gaps[0] != [];
    }
    var gaps' := [""] + gaps;
    assert ([w] + ws)[1..] == ws && gaps'[1..] == gaps;
    assert Interleave(gaps', [w] + ws) == "" + w + rest;
    assert forall k :: 0 < k < |gaps'| ==> gaps'[k] == gaps[k - 1];
  }

  /** `sep.join(ws)` */
  function Join(sep: string, ws: seq<string>): string {
    if ws == [] then ""
    else if |ws| == 1 then ws[0]
    else ws[0] + sep + Join(sep, ws[1..])
  }

  /** `sep.join(ws)` is the words with `sep` between neighbours and nothing
      before the first or after the last. */
  lemma {:induction false} JoinInterleaves(sep: string, ws: seq<string>)
    ensures Join(sep, ws) == Interleave(JoinGaps(sep, |ws|), ws)
  {
    if |ws| == 1 {
      assert Interleave(JoinGaps(sep, 1), ws) == "" + ws[0] + "";
    } else if |ws| > 1 {
      var n := |ws|;
      var tail := JoinGaps(sep, n - 1);
      assert JoinGaps(sep, n)[1..] == [sep + tail[0]] + tail[1..] by {
        var g := JoinGaps(sep, n)[1..];
        forall k | 0 <= k < |g| ensures g[k] == ([sep + tail[0]] + tail[1..])[k] {
          if k < n - 1 { assert g[k] == sep; }
        }
      }
      JoinInterleaves(sep, ws[1..]);
      InterleaveHead(sep, tail, ws[1..]);
    }
  }

  /**
   * `' '.join(s.split())`: the words of `s` separated by single spaces.
   * The result is in normal form, has the same words as `s`, and so
   * collapsing it again changes nothing.
   */
  function Collapse(s: string): (r: string)
    ensures Collapsed(r)
    ensures Words(r) == Words(s)
  {
    JoinWords(Words(s));
    Join(" ", Words(s))
  }

  lemma {:induction false} WordLenOfWord(w: string, t: string)
    requires IsWord(w)
    requires t == [] || IsSpace(t[0])
    ensures WordLen(w + t) == |w|
  {
    if |w| > 1 {
      assert (w + t)[1..] == w[1..] + t;
      WordLenOfWord(w[1..], t);
    } else {
      assert (w + t)[1..] == t;
    }
  }

  /** A word followed by a space splits off as the first word. */
  lemma WordsCons(w: string, rest: string)
    requires IsWord(w)
    ensures Words(w + " " + rest) == [w] + Words(rest)
  {
    var s := w + " " + rest;
    WordLenOfWord(w, " " + rest);
    assert s == w + (" " + rest);
    assert s[..|w|] == w;
    assert s[|w|..] == " " + rest;
    assert (" " + rest)[1..] == rest;
  }

  /** Joining words with single spaces and splitting again is the identity. */
  lemma {:induction false} JoinWords(ws: seq<string>)
    requires forall i :: 0 <= i < |ws| ==> IsWord(ws[i])
    ensures Collapsed(Join(" ", ws))
    ensures Words(Join(" ", ws)) == ws
  {
    if ws == [] {
    } else if |ws| == 1 {
      var w := ws[0];
      WordLenOfWord(w, []);
      assert w + [] == w;
      assert w[..|w|] == w && w[|w|..] == [];
    } else {
      var rest := Join(" ", ws[1..]);
      JoinWords(ws[1..]);
      JoinNonEmpty(ws[1..]);
      assert Join(" ", ws) == ws[0] + " " + rest;
      WordsCons(ws[0], rest);
      CollapsedCons(ws[0], rest);
      assert [ws[0]] + ws[1..] == ws;
    }
  }

  lemma JoinNonEmpty(ws: seq<string>)
    requires ws != [] && IsWord(ws[0])
    ensures Join(" ", ws) != []
  {
  }

  /** A word, a space and a non-empty normal string form a normal string. */
  lemma CollapsedCons(w: string, rest: string)
    requires IsWord(w) && Collapsed(rest) && rest != []
    ensures Collapsed(w + " " + rest)
  {
    var s := w + " " + rest;
    forall i | 0 <= i < |s|
      ensures i < |w| ==> s[i] == w[i]
      ensures i == |w| ==> s[i] == ' '
      ensures i > |w| ==> s[i] == rest[i - |w| - 1]
    {
    }
  }

  /** A string in normal form is the single-space join of its own words. */
  /** A suffix of a normal string that starts after a space is normal. */
  lemma CollapsedSuffix(r: string, k: nat)
    requires Collapsed(r) && 0 < k < |r| && IsSpace(r[k - 1])
    ensures Collapsed(r[k..])
  {
    var rest := r[k..];
    forall i | 0 <= i < |rest| ensures rest[i] == r[k + i] { }
  }

  lemma JoinStep(w: string, ws: seq<string>)
    requires ws != []
    ensures Join(" ", [w] + ws) == w + " " + Join(" ", ws)
  {
    assert ([w] + ws)[1..] == ws;
  }

  /** In a normal string the first word is followed by a single space and
      more text, unless it is the whole string. */
  lemma FirstWordBreak(r: string)
    requires Collapsed(r) && r != [] && WordLen(r) < |r|
    ensures 0 < WordLen(r) < |r| - 1 && r[WordLen(r)] == ' '
    ensures IsWord(r[..WordLen(r)])
  {
  }

  lemma {:induction false} CollapsedIsJoinOfWords(r: string)
    requires Collapsed(r)
    ensures Join(" ", Words(r)) == r
    decreases |r|
  {
    if r != [] {
      var n := WordLen(r);
      if n == |r| {
        assert r[..n] == r && r[n..] == [];
      } else {
        FirstWordBreak(r);
        var w, rest := r[..n], r[n + 1..];
        assert r == w + " " + rest;
        CollapsedSuffix(r, n + 1);
        WordsCons(w, rest);
        CollapsedIsJoinOfWords(rest);
        var ws := Words(rest);
        assert ws != [] by {
          assert Join(" ", ws) == rest && rest != [];
        }
        JoinStep(w, ws);
      }
    }
  }

  /** Collapsing a normal string changes nothing (with Collapse's own
      ensures, collapse is idempotent). */
  lemma CollapseFixesCollapsed(r: string)
    requires Collapsed(r)
    ensures Collapse(r) == r
  {
    CollapsedIsJoinOfWords(r);
  }

  lemma CollapseIdempotent(s: string)
    ensures Collapse(Collapse(s)) == Collapse(s)
  {
  }

  // ---------------------------------------------------------------- slices

  /** A Python slice bound resolved against a sequence of length `len`. */
  function PyIndex(i: int, len: nat): (k: nat)
    ensures k <= len
    ensures 0 <= i <= len ==> k == i
    ensures i > len ==> k == len
    ensures i < 0 ==> k == if i + len < 0 then 0 else i + len
  {
    if i < 0 then (if i + len < 0 then 0 else i + len)
    else if i > len then len
    else i
  }

  /** `s[start:stop]`: the elements whose index lies in the resolved window. */
  function PySlice<T>(s: seq<T>, start: int, stop: int): (r: seq<T>)
    ensures |r| <= |s|
    ensures var lo, hi := PyIndex(start, |s|), PyIndex(stop, |s|);
            |r| == (if lo < hi then hi - lo else 0)
            && forall k :: 0 <= k < |r| ==> r[k] == s[lo + k]
  {
    var lo, hi := PyIndex(start, |s|), PyIndex(stop, |s|);
    if lo < hi then s[lo..hi] else []
  }
}
