/**
 * The text buffer (src/buffer.rs) and the line splitting it relies on,
 * Rust's `str::lines`: lines end at '\n', a '\r' directly before that '\n'
 * is dropped too, and a final '\n' does not start another line.
 */
module Buffers {
  import opened Wrappers
  import Utf8

  /** Index of the first '\n' in `s`, or `|s|` when there is none. */
  function LineEnd(s: string): (k: nat)
    ensures k <= |s|
    ensures k < |s| ==> s[k] == '\n'
    ensures forall j :: 0 <= j < k ==> s[j] != '\n'
  {
    if s == [] || s[0] == '\n' then 0 else 1 + LineEnd(s[1..])
  }

  /** A terminated line loses one '\r' directly before its '\n'. */
  function StripCr(l: string): string
  {
    if |l| > 0 && l[|l| - 1] == '\r' then l[..|l| - 1] else l
  }

  /** `str::lines`. */
  function Lines(s: string): seq<string>
    decreases |s|
  {
    if s == [] then []
    else
      var k := LineEnd(s);
      if k == |s| then [s] else [StripCr(s[..k])] + Lines(s[k + 1..])
  }

  /** A string that ends with '\n', or is empty, has no unterminated last line. */
  predicate EndsTerminated(s: string)
  {
    s == [] || s[|s| - 1] == '\n'
  }

  /**
   * The number of lines is the number of '\n' characters, plus one for an
   * unterminated last line: a final '\n' starts no line, and "" has none.
   */
  lemma {:induction false} LinesCount(s: string)
    ensures |Lines(s)| == multiset(s)['\n'] + (if EndsTerminated(s) then 0 else 1)
    decreases |s|
  {
    if s != [] {
      var k := LineEnd(s);
      NoNewlineBefore(s, k);
      if k < |s| {
        var rest := s[k + 1..];
        assert s == s[..k] + [s[k]] + rest;
        assert multiset(s) == multiset(s[..k]) + multiset([s[k]]) + multiset(rest);
        LinesCount(rest);
        assert EndsTerminated(s) == EndsTerminated(rest) by {
          if rest != [] { assert rest[|rest| - 1] == s[|s| - 1]; }
        }
      } else {
        assert s[..k] == s;
      }
    }
  }

  /** The text before the first '\n' holds no '\n'. */
  lemma NoNewlineBefore(s: string, k: nat)
    requires k == LineEnd(s)
    ensures multiset(s[..k])['\n'] == 0
  {
    assert '\n' !in s[..k];
  }

  /** No line contains a '\n'. */
  lemma {:induction false} LinesHaveNoNewline(s: string)
    ensures forall i :: 0 <= i < |Lines(s)| ==> '\n' !in Lines(s)[i]
    decreases |s|
  {
    if s != [] {
      var k := LineEnd(s);
      if k < |s| {
        LinesHaveNoNewline(s[k + 1..]);
        var l := s[..k];
        assert '\n' !in l by { forall j | 0 <= j < |l| ensures l[j] != '\n' { } }
        assert '\n' !in StripCr(l);
        forall i | 0 <= i < |Lines(s)| ensures '\n' !in Lines(s)[i] {
          if i > 0 { assert Lines(s)[i] == Lines(s[k + 1..])[i - 1]; }
        }
      } else {
        assert Lines(s) == [s];
      }
    }
  }

  /** The line before a "\r\n" is given without either character. */
  lemma CrLfLine(l: string, rest: string)
    requires '\n' !in l
    ensures Lines(l + ['\r', '\n'] + rest) == [l] + Lines(rest)
  {
    var s := l + ['\r', '\n'] + rest;
    forall j | 0 <= j < |l| ensures s[j] != '\n' { assert s[j] == l[j]; }
    LineEndAt(s, |l| + 1);
    assert s[..|l| + 1] == l + ['\r'];
    assert s[|l| + 2..] == rest;
  }

  /** When `s[k]` is the first '\n', LineEnd finds it. */
  lemma {:induction false} LineEndAt(s: string, k: nat)
    requires k < |s| && s[k] == '\n'
    requires forall j :: 0 <= j < k ==> s[j] != '\n'
    ensures LineEnd(s) == k
  {
    if k > 0 {
      LineEndAt(s[1..], k - 1);
    }
  }

  /** Each line followed by '\n'. */
  function Unlines(ls: seq<string>): string
  {
    if ls == [] then [] else ls[0] + ['\n'] + Unlines(ls[1..])
  }

  /**
   * Without '\r' characters, splitting loses nothing but the choice of a
   * final terminator: joining the lines back, each with its '\n', gives the
   * text with a '\n' added when its last line had none.
   */
  lemma {:induction false} UnlinesLines(s: string)
    requires '\r' !in s
    ensures Unlines(Lines(s)) == if EndsTerminated(s) then s else s + ['\n']
    decreases |s|
  {
    if s != [] {
      var k := LineEnd(s);
      if k < |s| {
        var l := s[..k];
        var rest := s[k + 1..];
        SplitAtLineFeed(s, k);
        UnlinesLines(rest);
        UnlinesCons(l, Lines(rest));
        if EndsTerminated(rest) {
          assert Unlines(Lines(s)) == l + ['\n'] + rest;
        } else {
          assert Unlines(Lines(s)) == l + ['\n'] + (rest + ['\n']);
          assert l + ['\n'] + (rest + ['\n']) == l + ['\n'] + rest + ['\n'];
        }
      } else {
        assert Lines(s) == [s];
        assert Unlines([s]) == s + ['\n'] + Unlines([]);
      }
    }
  }

  /** The first line of a text without '\r', where it ends in '\n'. */
  lemma SplitAtLineFeed(s: string, k: nat)
    requires '\r' !in s && k == LineEnd(s) && k < |s|
    ensures var l := s[..k];
      var rest := s[k + 1..];
      && '\r' !in rest
      && s == l + ['\n'] + rest
      && Lines(s) == [l] + Lines(rest)
      && EndsTerminated(s) == EndsTerminated(rest)
  {
    var l := s[..k];
    var rest := s[k + 1..];
    assert '\r' !in rest by { forall j | 0 <= j < |rest| ensures rest[j] != '\r' { assert rest[j] == s[k + 1 + j]; } }
    assert '\r' !in l by { forall j | 0 <= j < |l| ensures l[j] != '\r' { assert l[j] == s[j]; } }
    assert StripCr(l) == l;
    assert s == l + ['\n'] + rest;
    if rest != [] { assert rest[|rest| - 1] == s[|s| - 1]; }
  }

  lemma UnlinesCons(l: string, ls: seq<string>)
    ensures Unlines([l] + ls) == l + ['\n'] + Unlines(ls)
  {
    assert ([l] + ls)[1..] == ls;
  }

  /** `Buffer`: the text of one open file. */
  datatype Buffer = Buffer(content: string) {

    /**
     * `num_rows`: how many lines `str::lines` yields; an empty buffer has
     * none and a final '\n' adds none.
     */
    function NumRows(): (n: nat)
      ensures n == multiset(content)['\n'] + (if EndsTerminated(content) then 0 else 1)
    {
      LinesCount(content);
      |Lines(content)|
    }

    /**
     * `row_len`: the length in BYTES (`str::len`) of line `row`, or None past
     * the last line. The byte length is at least the number of characters and
     * exceeds it as soon as the line holds a non-ASCII character.
     */
    function RowLen(row: nat): (r: Option<nat>)
      ensures r.None? <==> row >= NumRows()
      ensures r.Some? ==> r.value == |Utf8.EncodeString(Lines(content)[row])|
      ensures r.Some? ==> |Lines(content)[row]| <= r.value
      ensures r.Some? ==> (r.value == |Lines(content)[row]| <==> Utf8.Ascii(Lines(content)[row]))
    {
      var lines := Lines(content);
      if row < |lines| then
        Utf8.ByteLenBounds(lines[row]);
        Some(|Utf8.EncodeString(lines[row])|)
      else None
    }
  }

  /** `Buffer::default()`: an empty buffer, with no rows. */
  function DefaultBuffer(): (b: Buffer)
    ensures b.NumRows() == 0
    ensures forall row: nat :: b.RowLen(row).None?
  {
    Buffer([])
  }
}
