/**
 * The JavaScript string built-ins the application relies on, stated over
 * `seq<char>`: `startsWith`, `split` with a non-empty separator, `replace`
 * with a string pattern (first occurrence only) and `trim`. `Join` is not
 * called by the application; it is the inverse against which `Split` is
 * proved.
 */
module JsString {

  /** `s.startsWith(p)` */
  predicate StartsWith(s: string, p: string)
  {
    |p| <= |s| && s[..|p|] == p
  }

  /** Starting with `p` is being `p` followed by some rest. */
  lemma StartsWithIff(s: string, p: string)
    ensures StartsWith(s, p) <==> exists t :: s == p + t
  {
    if StartsWith(s, p) {
      assert s == p + s[|p|..];
    }
  }

  /** `t` occurs in `s` at some position (`s.includes(t)`) */
  predicate Occurs(s: string, t: string)
    decreases |s|
  {
    StartsWith(s, t) || (|s| > 0 && Occurs(s[1..], t))
  }

  lemma {:induction false} OccursShorter(s: string, t: string)
    requires |s| < |t|
    ensures !Occurs(s, t)
    decreases |s|
  {
    if |s| > 0 {
      OccursShorter(s[1..], t);
    }
  }

  /** `parts.join(sep)` */
  function Join(parts: seq<string>, sep: string): string
    decreases |parts|
  {
    if |parts| == 0 then ""
    else if |parts| == 1 then parts[0]
    else parts[0] + sep + Join(parts[1..], sep)
  }

  /**
   * `s.split(sep)` for a non-empty string separator: the input is cut at
   * every occurrence of `sep`, scanning left to right, and the separators are
   * dropped. The empty string gives one empty piece.
   */
  function Split(s: string, sep: string): (r: seq<string>)
    requires sep != ""
    ensures |r| >= 1
    decreases |s|
  {
    if StartsWith(s, sep) then [""] + Split(s[|sep|..], sep)
    else if s == "" then [""]
    else
      var rest := Split(s[1..], sep);
      [[s[0]] + rest[0]] + rest[1..]
  }

  /** Joining the pieces of a split with the same separator gives the input back. */
  lemma {:induction false} SplitJoin(s: string, sep: string)
    requires sep != ""
    ensures Join(Split(s, sep), sep) == s
    decreases |s|
  {
    if StartsWith(s, sep) {
      var t := s[|sep|..];
      var tail := Split(t, sep);
      assert Join([""] + tail, sep) == sep + t by {
        SplitJoin(t, sep);
        JoinCons("", tail, sep);
      }
      assert s == sep + t;
    } else if s != "" {
      var t := s[1..];
      var rest := Split(t, sep);
      assert Join([[s[0]] + rest[0]] + rest[1..], sep) == [s[0]] + t by {
        SplitJoin(t, sep);
        JoinGrowHead(s[0], rest, sep);
      }
      assert s == [s[0]] + t;
    }
  }

  /** Putting one more character in front of the first piece puts it in front of the join. */
  lemma JoinGrowHead(c: char, parts: seq<string>, sep: string)
    requires |parts| >= 1
    ensures Join([[c] + parts[0]] + parts[1..], sep) == [c] + Join(parts, sep)
  {
    if |parts| > 1 {
      JoinCons([c] + parts[0], parts[1..], sep);
      JoinCons(parts[0], parts[1..], sep);
      assert parts == [parts[0]] + parts[1..];
    }
  }

  /**
   * The cut points of a split are the leftmost occurrences: no piece
   * contains the separator, and no occurrence of the separator starts inside
   * a piece and runs on into the separator that follows it.
   */
  predicate LeftmostPieces(r: seq<string>, sep: string)
    requires sep != ""
  {
    && (forall i :: 0 <= i < |r| ==> !Occurs(r[i], sep))
    && (forall i :: 0 <= i < |r| - 1 ==> !Occurs(r[i] + sep[..|sep| - 1], sep))
  }

  lemma {:induction false} OccursCons(c: char, x: string, t: string)
    ensures Occurs([c] + x, t) == (StartsWith([c] + x, t) || Occurs(x, t))
  {
    assert ([c] + x)[1..] == x;
  }

  /** A prefix of a string that does not start with `t` does not start with it either. */
  lemma PrefixNotStarting(s: string, x: string, t: string)
    requires |x| <= |s| && x == s[..|x|] && !StartsWith(s, t)
    ensures !StartsWith(x, t)
  {
  }

  /** The text before a separator, with all but the separator's last character, is a prefix. */
  lemma PrefixThroughSep(x: string, sep: string, y: string)
    requires sep != ""
    ensures (x + sep + y)[..|x| + |sep| - 1] == x + sep[..|sep| - 1]
  {
  }

  /** A split with more than one piece: the text is its first piece, a separator and the rest. */
  lemma SplitShape(s: string, sep: string)
    requires sep != "" && !StartsWith(s, sep) && s != ""
    requires |Split(s[1..], sep)| > 1
    ensures var rest := Split(s[1..], sep);
      s == [s[0]] + rest[0] + sep + Join(rest[1..], sep)
  {
    var t := s[1..];
    var rest := Split(t, sep);
    var j := Join(rest[1..], sep);
    assert t == rest[0] + sep + j by {
      SplitJoin(t, sep);
      assert rest == [rest[0]] + rest[1..];
      JoinCons(rest[0], rest[1..], sep);
    }
    ConsThrough(s[0], t, rest[0], sep, j);
    assert s == [s[0]] + t;
  }

  lemma ConsThrough(c: char, t: string, a: string, sep: string, j: string)
    requires t == a + sep + j
    ensures [c] + t == [c] + a + sep + j
  {
  }

  /** The first piece of a split, when it is not the last one, is a leftmost cut. */
  lemma {:induction false} FirstPieceLeftmost(s: string, sep: string)
    requires sep != "" && !StartsWith(s, sep) && s != ""
    requires LeftmostPieces(Split(s[1..], sep), sep)
    ensures var rest := Split(s[1..], sep);
      |rest| > 1 ==> !Occurs([s[0]] + rest[0] + sep[..|sep| - 1], sep)
  {
    var rest := Split(s[1..], sep);
    if |rest| > 1 {
      var short := sep[..|sep| - 1];
      var p := [s[0]] + rest[0];
      assert !StartsWith(p + short, sep) by {
        SplitShape(s, sep);
        PrefixThroughSep(p, sep, Join(rest[1..], sep));
        PrefixNotStarting(s, p + short, sep);
      }
      assert p + short == [s[0]] + (rest[0] + short);
      OccursCons(s[0], rest[0] + short, sep);
    }
  }

  /** Every piece of a split is cut at the leftmost remaining occurrence. */
  lemma {:induction false} SplitLeftmost(s: string, sep: string)
    requires sep != ""
    ensures LeftmostPieces(Split(s, sep), sep)
    decreases |s|
  {
    var r := Split(s, sep);
    if StartsWith(s, sep) {
      var tail := s[|sep|..];
      SplitLeftmost(tail, sep);
      OccursShorter("", sep);
      OccursShorter("" + sep[..|sep| - 1], sep);
      assert r == [""] + Split(tail, sep);
    } else if s == "" {
      OccursShorter("", sep);
    } else {
      var rest := Split(s[1..], sep);
      SplitLeftmost(s[1..], sep);
      assert r == [[s[0]] + rest[0]] + rest[1..];
      FirstPieceLeftmost(s, sep);
      if |rest| == 1 {
        SplitJoin(s[1..], sep);
        assert [s[0]] + rest[0] == s;
        OccursCons(s[0], rest[0], sep);
      } else {
        OccursCons(s[0], rest[0], sep);
      }
    }
  }

  /** Joining is unfolded one piece at a time. */
  lemma JoinCons(p: string, tail: seq<string>, sep: string)
    requires |tail| > 0
    ensures Join([p] + tail, sep) == p + sep + Join(tail, sep)
  {
    assert ([p] + tail)[1..] == tail;
  }

  /** Dropping the first piece keeps the cuts leftmost. */
  lemma LeftmostTail(parts: seq<string>, sep: string)
    requires sep != "" && |parts| >= 1 && LeftmostPieces(parts, sep)
    ensures LeftmostPieces(parts[1..], sep)
  {
    var tail := parts[1..];
    forall i | 0 <= i < |tail| - 1 ensures !Occurs(tail[i] + sep[..|sep| - 1], sep) {
      assert tail[i] == parts[i + 1];
    }
  }

  /** Dropping the first character of the first piece keeps the cuts leftmost. */
  lemma LeftmostBehead(parts: seq<string>, sep: string)
    requires sep != "" && |parts| >= 1 && parts[0] != "" && LeftmostPieces(parts, sep)
    ensures LeftmostPieces([parts[0][1..]] + parts[1..], sep)
  {
    var c, p := parts[0][0], parts[0][1..];
    var short := sep[..|sep| - 1];
    var parts' := [p] + parts[1..];
    assert parts[0] == [c] + p;
    OccursCons(c, p, sep);
    if |parts| > 1 {
      assert parts[0] + short == [c] + (p + short);
      OccursCons(c, p + short, sep);
    }
    forall i | 0 <= i < |parts'| - 1 ensures !Occurs(parts'[i] + short, sep) {
      if i > 0 { assert parts'[i] == parts[i]; }
    }
    forall i | 0 <= i < |parts'| ensures !Occurs(parts'[i], sep) {
      if i > 0 { assert parts'[i] == parts[i]; }
    }
  }

  /** A non-empty first piece cut at a leftmost occurrence does not start with the separator. */
  lemma FirstPieceNotSeparator(parts: seq<string>, sep: string)
    requires sep != "" && |parts| >= 1 && parts[0] != "" && LeftmostPieces(parts, sep)
    ensures !StartsWith(Join(parts, sep), sep)
  {
    var s := Join(parts, sep);
    var c, p := parts[0][0], parts[0][1..];
    assert parts[0] == [c] + p;
    if |parts| == 1 {
      OccursCons(c, p, sep);
    } else {
      var short := sep[..|sep| - 1];
      var x := parts[0] + short;
      assert x == [c] + (p + short);
      OccursCons(c, p + short, sep);
      assert parts == [parts[0]] + parts[1..];
      JoinCons(parts[0], parts[1..], sep);
      PrefixThroughSep(parts[0], sep, Join(parts[1..], sep));
      PrefixNotStarting(s, x, sep);
    }
  }

  /**
   * Conversely, any pieces cut at leftmost occurrences are exactly what the
   * split of their join gives back: `Split` is the only such decomposition.
   */
  lemma {:induction false} JoinSplit(parts: seq<string>, sep: string)
    requires sep != "" && |parts| >= 1 && LeftmostPieces(parts, sep)
    ensures Split(Join(parts, sep), sep) == parts
    decreases |Join(parts, sep)|, 1
  {
    if parts[0] == "" {
      JoinSplitEmptyHead(parts, sep);
    } else {
      JoinSplitBehead(parts, sep);
    }
  }

  lemma {:induction false} JoinSplitEmptyHead(parts: seq<string>, sep: string)
    requires sep != "" && |parts| >= 1 && LeftmostPieces(parts, sep) && parts[0] == ""
    ensures Split(Join(parts, sep), sep) == parts
    decreases |Join(parts, sep)|, 0
  {
    if |parts| > 1 {
      var s := Join(parts, sep);
      var tail := parts[1..];
      assert parts == [""] + tail;
      JoinCons("", tail, sep);
      assert s == sep + Join(tail, sep);
      assert s[|sep|..] == Join(tail, sep);
      LeftmostTail(parts, sep);
      JoinSplit(tail, sep);
    }
  }

  lemma {:induction false} JoinSplitBehead(parts: seq<string>, sep: string)
    requires sep != "" && |parts| >= 1 && LeftmostPieces(parts, sep) && parts[0] != ""
    ensures Split(Join(parts, sep), sep) == parts
    decreases |Join(parts, sep)|, 0
  {
    var s := Join(parts, sep);
    var c, p := parts[0][0], parts[0][1..];
    var tail := parts[1..];
    var parts' := [p] + tail;
    FirstPieceNotSeparator(parts, sep);
    LeftmostBehead(parts, sep);
    assert parts[0] == [c] + p;
    assert parts == [parts[0]] + tail;
    if |parts| == 1 {
      assert s == [c] + Join(parts', sep);
    } else {
      JoinCons(parts[0], tail, sep);
      JoinCons(p, tail, sep);
      assert s == [c] + Join(parts', sep);
    }
    assert s[1..] == Join(parts', sep);
    JoinSplit(parts', sep);
    assert Split(s, sep) == [[c] + p] + tail;
  }

  /**
   * `s.replace(pat, rep)` with a non-empty string pattern: only the first
   * occurrence is replaced, and a string without one is returned unchanged.
   */
  function ReplaceFirst(s: string, pat: string, rep: string): (r: string)
    requires pat != ""
    ensures StartsWith(s, pat) ==> r == rep + s[|pat|..]
    ensures !Occurs(s, pat) ==> r == s
    decreases |s|
  {
    if StartsWith(s, pat) then rep + s[|pat|..]
    else if s == "" then ""
    else [s[0]] + ReplaceFirst(s[1..], pat, rep)
  }

  /**
   * Wherever the first occurrence of the pattern lies, it is the one replaced:
   * the text before it and the text after it are kept.
   */
  lemma {:induction false} ReplaceFirstAt(s: string, pat: string, rep: string, i: nat)
    requires pat != ""
    requires i + |pat| <= |s| && StartsWith(s[i..], pat)
    requires forall j :: 0 <= j < i ==> !StartsWith(s[j..], pat)
    ensures ReplaceFirst(s, pat, rep) == s[..i] + rep + s[i + |pat|..]
    decreases i
  {
    if i > 0 {
      var t := s[1..];
      assert ReplaceFirst(s, pat, rep) == [s[0]] + ReplaceFirst(t, pat, rep) by {
        assert s[0..] == s;
      }
      assert i - 1 + |pat| <= |t| && StartsWith(t[i - 1..], pat) by {
        assert t[i - 1..] == s[i..];
      }
      forall j | 0 <= j < i - 1
        ensures !StartsWith(t[j..], pat)
      {
        assert t[j..] == s[j + 1..];
      }
      ReplaceFirstAt(t, pat, rep, i - 1);
      ConsThrough(s[0], ReplaceFirst(t, pat, rep), t[..i - 1], rep, t[i - 1 + |pat|..]);
      assert [s[0]] + t[..i - 1] == s[..i];
      assert t[i - 1 + |pat|..] == s[i + |pat|..];
    }
  }

  /**
   * The characters `String.prototype.trim` removes: the WhiteSpace and
   * LineTerminator code points of ECMAScript (tab, vertical tab, form feed,
   * space, no-break space, byte order mark, the Space_Separator category,
   * line feed, carriage return, line and paragraph separator).
   */
  predicate IsWhitespace(c: char)
  {
    || c == '\t' || c == '\n' || c == '\U{000B}' || c == '\U{000C}' || c == '\r'
    || c == ' ' || c == '\U{00A0}' || c == '\U{1680}'
    || ('\U{2000}' <= c <= '\U{200A}')
    || c == '\U{2028}' || c == '\U{2029}' || c == '\U{202F}' || c == '\U{205F}'
    || c == '\U{3000}' || c == '\U{FEFF}'
  }

  /** Every character of `s` is whitespace (vacuously so for ""). */
  predicate IsBlank(s: string)
  {
    forall i :: 0 <= i < |s| ==> IsWhitespace(s[i])
  }

  /** The number of whitespace characters `s` starts with. */
  function LeadingBlanks(s: string): (n: nat)
    ensures n <= |s|
    ensures forall i :: 0 <= i < n ==> IsWhitespace(s[i])
    ensures n < |s| ==> !IsWhitespace(s[n])
    decreases |s|
  {
    if s != "" && IsWhitespace(s[0]) then 1 + LeadingBlanks(s[1..]) else 0
  }

  /** The length of `s` without the whitespace it ends with. */
  function ContentEnd(s: string): (n: nat)
    ensures n <= |s|
    ensures forall i :: n <= i < |s| ==> IsWhitespace(s[i])
    ensures 0 < n ==> !IsWhitespace(s[n - 1])
    decreases |s|
  {
    if s != "" && IsWhitespace(s[|s| - 1]) then ContentEnd(s[..|s| - 1]) else |s|
  }

  /** `s.trimStart()` */
  function TrimStart(s: string): (r: string)
    ensures r == "" <==> IsBlank(s)
    ensures r != "" ==> !IsWhitespace(r[0])
    ensures |r| <= |s| && r == s[|s| - |r|..]
    ensures IsBlank(s[..|s| - |r|])
  {
    s[LeadingBlanks(s)..]
  }

  /** `s.trimEnd()` */
  function TrimEnd(s: string): (r: string)
    ensures r == "" <==> IsBlank(s)
    ensures r != "" ==> !IsWhitespace(r[|r| - 1])
    ensures |r| <= |s| && r == s[..|r|]
    ensures IsBlank(s[|r|..])
  {
    s[..ContentEnd(s)]
  }

  /** `s.trim()`: nothing is left exactly when the input is all whitespace. */
  function Trim(s: string): (r: string)
    ensures r == "" <==> IsBlank(s)
  {
    TrimEnd(TrimStart(s))
  }

}
