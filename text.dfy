/** String helpers with the meaning Python gives them: whitespace, strip(),
    lower(), `in` on strings, str.join and re.split. */
module Text {

  datatype Option<T> = None | Some(value: T)

  /** The characters for which Python's str.isspace() holds; str.strip()
      with no argument removes exactly these. */
  predicate IsSpace(c: char) {
    var n := c as int;
    n == 0x20 || 0x09 <= n <= 0x0D || 0x1C <= n <= 0x1F || n == 0x85 || n == 0xA0 ||
    n == 0x1680 || 0x2000 <= n <= 0x200A || n == 0x2028 || n == 0x2029 ||
    n == 0x202F || n == 0x205F || n == 0x3000
  }

  /** Neither end of `t` is whitespace. */
  predicate IsStripped(t: string) {
    t == [] || (!IsSpace(t[0]) && !IsSpace(t[|t| - 1]))
  }

  /** str.lstrip(): a suffix of `s` that does not start with whitespace. */
  function StripLeft(s: string): (r: string)
    ensures |r| <= |s|
    ensures r == [] || !IsSpace(r[0])
  {
    if s != [] && IsSpace(s[0]) then StripLeft(s[1..]) else s
  }

  /** str.rstrip(): a prefix of `s` that does not end with whitespace. */
  function StripRight(s: string): (r: string)
    ensures |r| <= |s|
    ensures r == [] || !IsSpace(r[|r| - 1])
  {
    if s != [] && IsSpace(s[|s| - 1]) then StripRight(s[..|s| - 1]) else s
  }

  /** lstrip leaves a suffix. */
  lemma {:induction false} StripLeftSuffix(s: string)
    ensures StripLeft(s) == s[|s| - |StripLeft(s)|..]
  {
    if s != [] && IsSpace(s[0]) {
      StripLeftSuffix(s[1..]);
    }
  }

  /** rstrip leaves a prefix. */
  lemma {:induction false} StripRightPrefix(s: string)
    ensures StripRight(s) == s[..|StripRight(s)|]
  {
    if s != [] && IsSpace(s[|s| - 1]) {
      StripRightPrefix(s[..|s| - 1]);
    }
  }

  /** str.strip(): the infix of `s` left when whitespace is taken off both
      ends; lemma StripRemovesOnlySpace says what was taken off. */
  function Strip(s: string): (r: string)
    ensures IsStripped(r)
    ensures |r| <= |s|
  {
    var l := StripLeft(s);
    var r := StripRight(l);
    StripRightPrefix(l);
    assert r != [] ==> r[0] == l[0];
    r
  }

  /** lstrip removes whitespace only. */
  lemma {:induction false} StripLeftRemovesSpace(s: string)
    ensures forall i :: 0 <= i < |s| - |StripLeft(s)| ==> IsSpace(s[i])
  {
    if s != [] && IsSpace(s[0]) {
      StripLeftRemovesSpace(s[1..]);
    }
  }

  /** rstrip removes whitespace only. */
  lemma {:induction false} StripRightRemovesSpace(s: string)
    ensures forall i :: |StripRight(s)| <= i < |s| ==> IsSpace(s[i])
  {
    if s != [] && IsSpace(s[|s| - 1]) {
      StripRightRemovesSpace(s[..|s| - 1]);
    }
  }

  /** Strip(s) sits in `s` after k leading whitespace characters and is
      followed by whitespace only. */
  lemma StripRemovesOnlySpace(s: string) returns (k: nat)
    ensures k + |Strip(s)| <= |s| && Strip(s) == s[k..k + |Strip(s)|]
    ensures forall i :: 0 <= i < k ==> IsSpace(s[i])
    ensures forall i :: k + |Strip(s)| <= i < |s| ==> IsSpace(s[i])
  {
    k := StripInfix(s);
    StripLeftRemovesSpace(s);
    var l := StripLeft(s);
    StripLeftSuffix(s);
    StripRightRemovesSpace(l);
    var n := |Strip(s)|;
    forall i | k + n <= i < |s| ensures IsSpace(s[i]) {
      assert s[i] == l[i - k];
    }
  }

  lemma StripInfix(s: string) returns (k: nat)
    ensures k == |s| - |StripLeft(s)|
    ensures k + |Strip(s)| <= |s| && Strip(s) == s[k..k + |Strip(s)|]
    ensures |Strip(s)| == |StripRight(StripLeft(s))|
  {
    var l := StripLeft(s);
    k := |s| - |l|;
    var r := StripRight(l);
    StripLeftSuffix(s);
    StripRightPrefix(l);
    assert r == Strip(s);
    assert l == s[k..] && r == l[..|r|];
    assert s[k..][..|r|] == s[k..k + |r|];
  }

  /** Leading whitespace does not survive strip(). */
  lemma StripLeadingSpace(c: char, x: string)
    requires IsSpace(c)
    ensures Strip([c] + x) == Strip(x)
  {
    assert ([c] + x)[1..] == x;
    assert StripLeft([c] + x) == StripLeft(x);
  }

  lemma StripOfStripped(t: string)
    requires IsStripped(t)
    ensures Strip(t) == t
  {
    assert StripLeft(t) == t;
  }

  /** A character that lies inside the strip of `s` lies inside `s`. */
  lemma StripChars(s: string, c: char)
    requires c in Strip(s)
    ensures c in s
  {
    var k := StripRemovesOnlySpace(s);
    var r := Strip(s);
    var j :| 0 <= j < |r| && r[j] == c;
    assert s[k + j] == c;
  }

  /** The comprehension `[p.strip() for p in pieces if p.strip()]`. */
  function Clean(pieces: seq<string>): (r: seq<string>)
    ensures |r| <= |pieces|
    ensures forall i :: 0 <= i < |r| ==> r[i] != [] && IsStripped(r[i])
  {
    if pieces == [] then [] else CleanOne(pieces[0]) + Clean(pieces[1..])
  }

  /** One piece of the comprehension: its strip, or nothing when blank. */
  function CleanOne(p: string): (r: seq<string>)
    ensures |r| <= 1
    ensures forall i :: 0 <= i < |r| ==> r[i] != [] && IsStripped(r[i])
  {
    if Strip(p) == [] then [] else [Strip(p)]
  }

  lemma {:induction false} CleanAppend(x: seq<string>, y: seq<string>)
    ensures Clean(x + y) == Clean(x) + Clean(y)
  {
    if x == [] {
      assert x + y == y;
    } else {
      var xy := x + y;
      assert xy[0] == x[0];
      assert xy[1..] == x[1..] + y;
      CleanAppend(x[1..], y);
      calc {
        Clean(xy);
        CleanOne(x[0]) + Clean(x[1..] + y);
        CleanOne(x[0]) + (Clean(x[1..]) + Clean(y));
        (CleanOne(x[0]) + Clean(x[1..])) + Clean(y);
      }
    }
  }

  /** Cleaning keeps pieces free of a character class: no token holds a
      character that no piece holds. */
  lemma {:induction false} CleanAvoids(pieces: seq<string>, sep: char -> bool)
    requires forall i, j :: 0 <= i < |pieces| && 0 <= j < |pieces[i]| ==> !sep(pieces[i][j])
    ensures forall i, j :: 0 <= i < |Clean(pieces)| && 0 <= j < |Clean(pieces)[i]| ==> !sep(Clean(pieces)[i][j])
  {
    if pieces != [] {
      CleanAvoids(pieces[1..], sep);
      var t := Strip(pieces[0]);
      assert Clean(pieces) == CleanOne(pieces[0]) + Clean(pieces[1..]);
      forall j | 0 <= j < |t| ensures !sep(t[j]) {
        StripChars(pieces[0], t[j]);
      }
    }
  }

  /** Cleaning a list of tokens that are already non-empty and stripped
      gives the same list. */
  lemma {:induction false} CleanOfClean(ts: seq<string>)
    requires forall i :: 0 <= i < |ts| ==> ts[i] != [] && IsStripped(ts[i])
    ensures Clean(ts) == ts
  {
    if ts != [] {
      CleanOfClean(ts[1..]);
      CleanOneToken(ts[0]);
      assert Clean(ts) == CleanOne(ts[0]) + Clean(ts[1..]);
      assert ts == [ts[0]] + ts[1..];
    }
  }

  lemma CleanOneToken(t: string)
    requires t != [] && IsStripped(t)
    ensures CleanOne(t) == [t]
  {
    StripOfStripped(t);
  }

  /** `sep.join(parts)` */
  function Join(parts: seq<string>, sep: string): (r: string)
    ensures parts == [] ==> r == []
    ensures |parts| == 1 ==> r == parts[0]
  {
    if parts == [] then []
    else if |parts| == 1 then parts[0]
    else parts[0] + sep + Join(parts[1..], sep)
  }

  /** `re.split('[C]', s)` for a one-character class C: the pieces between
      single separator characters, empty ones included. */
  function SplitEach(s: string, sep: char -> bool): (r: seq<string>)
    ensures |r| >= 1
    ensures forall i, j :: 0 <= i < |r| && 0 <= j < |r[i]| ==> !sep(r[i][j])
  {
    if s == [] then [[]]
    else if sep(s[0]) then [[]] + SplitEach(s[1..], sep)
    else
      var rest := SplitEach(s[1..], sep);
      [[s[0]] + rest[0]] + rest[1..]
  }

  /** A character that is no separator joins the first piece. */
  lemma SplitEachCons(c: char, x: string, sep: char -> bool)
    requires !sep(c)
    ensures var rest := SplitEach(x, sep);
      SplitEach([c] + x, sep) == [[c] + rest[0]] + rest[1..]
  {
    assert ([c] + x)[0] == c && ([c] + x)[1..] == x;
  }

  /** `re.split('[C]+', s)`: a run of separators is one split point. */
  function SplitRuns(s: string, sep: char -> bool): (r: seq<string>)
    ensures |r| >= 1
    ensures forall i, j :: 0 <= i < |r| && 0 <= j < |r[i]| ==> !sep(r[i][j])
    ensures s != [] && sep(s[0]) ==> r[0] == []
  {
    if s == [] then [[]]
    else if sep(s[0]) then
      if |s| > 1 && sep(s[1]) then SplitRuns(s[1..], sep) else [[]] + SplitRuns(s[1..], sep)
    else
      var rest := SplitRuns(s[1..], sep);
      [[s[0]] + rest[0]] + rest[1..]
  }

  /** Splitting on runs and splitting on single separators differ only in
      empty pieces: the first piece is the same and the rest clean alike. */
  lemma {:induction false} RunsAgreeWithEach(s: string, sep: char -> bool)
    ensures SplitRuns(s, sep)[0] == SplitEach(s, sep)[0]
    ensures Clean(SplitRuns(s, sep)[1..]) == Clean(SplitEach(s, sep)[1..])
  {
    if s == [] {
    } else if sep(s[0]) {
      RunsAgreeWithEach(s[1..], sep);
      var each := SplitEach(s[1..], sep);
      if |s| > 1 && sep(s[1]) {
        assert each[0] == [];
        assert SplitEach(s, sep)[1..] == each;
        assert each == [each[0]] + each[1..];
        CleanAppend([each[0]], each[1..]);
      } else {
        assert SplitEach(s, sep)[1..] == each;
        assert SplitRuns(s, sep)[1..] == SplitRuns(s[1..], sep);
        var runs := SplitRuns(s[1..], sep);
        assert runs == [runs[0]] + runs[1..];
        assert each == [each[0]] + each[1..];
        CleanAppend([runs[0]], runs[1..]);
        CleanAppend([each[0]], each[1..]);
      }
    } else {
      RunsAgreeWithEach(s[1..], sep);
    }
  }

  /** The whole clean split does not depend on whether runs are merged. */
  lemma CleanRunsIsCleanEach(s: string, sep: char -> bool)
    ensures Clean(SplitRuns(s, sep)) == Clean(SplitEach(s, sep))
  {
    RunsAgreeWithEach(s, sep);
    var runs := SplitRuns(s, sep);
    var each := SplitEach(s, sep);
    assert Clean(runs) == CleanOne(runs[0]) + Clean(runs[1..]);
    assert Clean(each) == CleanOne(each[0]) + Clean(each[1..]);
  }

  /** A separator cuts the input into two independently split halves. */
  lemma {:induction false} SplitEachAt(a: string, c: char, b: string, sep: char -> bool)
    requires sep(c)
    ensures SplitEach(a + [c] + b, sep) == SplitEach(a, sep) + SplitEach(b, sep)
  {
    if a == [] {
      assert a + [c] + b == [c] + b;
      assert ([c] + b)[1..] == b;
    } else {
      assert (a + [c] + b)[0] == a[0];
      assert (a + [c] + b)[1..] == a[1..] + [c] + b;
      SplitEachAt(a[1..], c, b, sep);
    }
  }

  /** Text without separators is a single piece. */
  lemma {:induction false} SplitEachNoSep(t: string, sep: char -> bool)
    requires forall j :: 0 <= j < |t| ==> !sep(t[j])
    ensures SplitEach(t, sep) == [t]
  {
    if t != [] {
      SplitEachNoSep(t[1..], sep);
      assert [t[0]] + t[1..] == t;
    }
  }

  /** Round trip: joining separator-free pieces with one separator
      character and splitting again gives the pieces back. */
  lemma {:induction false} SplitEachOfJoin(ps: seq<string>, c: char, sep: char -> bool)
    requires sep(c) && |ps| >= 1
    requires forall i, j :: 0 <= i < |ps| && 0 <= j < |ps[i]| ==> !sep(ps[i][j])
    ensures SplitEach(Join(ps, [c]), sep) == ps
  {
    if |ps| == 1 {
      SplitEachNoSep(ps[0], sep);
    } else {
      var rest := ps[1..];
      assert forall i :: 0 <= i < |rest| ==> rest[i] == ps[i + 1];
      SplitEachNoSep(ps[0], sep);
      SplitEachOfJoin(rest, c, sep);
      assert Join(ps, [c]) == ps[0] + [c] + Join(rest, [c]);
      SplitEachAt(ps[0], c, Join(rest, [c]), sep);
      assert ps == [ps[0]] + rest;
    }
  }

  /** The other round trip: when every separator in `s` is `c`, joining the
      pieces with `c` rebuilds `s`. */
  lemma {:induction false} JoinOfSplitEach(s: string, c: char, sep: char -> bool)
    requires sep(c)
    requires forall j :: 0 <= j < |s| && sep(s[j]) ==> s[j] == c
    ensures Join(SplitEach(s, sep), [c]) == s
  {
    if s == [] {
    } else {
      JoinOfSplitEach(s[1..], c, sep);
      var rest := SplitEach(s[1..], sep);
      if sep(s[0]) {
        assert SplitEach(s, sep) == [[]] + rest;
        assert s == [c] + s[1..];
        if |rest| == 1 {
          assert Join([[]] + rest, [c]) == [] + [c] + rest[0];
        } else {
          assert ([[]] + rest)[1..] == rest;
        }
      } else {
        var r := SplitEach(s, sep);
        assert r == [[s[0]] + rest[0]] + rest[1..];
        if |rest| == 1 {
          assert r == [[s[0]] + rest[0]];
        } else {
          assert r[1..] == rest[1..];
          assert Join(rest, [c]) == rest[0] + [c] + Join(rest[1..], [c]);
          assert Join(r, [c]) == ([s[0]] + rest[0]) + [c] + Join(rest[1..], [c]);
        }
        assert s == [s[0]] + s[1..];
      }
    }
  }

  /** ASCII letters folded to lower case, as str.lower() does for them. */
  function LowerChar(c: char): (r: char)
    ensures 'A' <= c <= 'Z' ==> 'a' <= r <= 'z' && r as int == c as int + 32
    ensures !('A' <= c <= 'Z') ==> r == c
  {
    if 'A' <= c <= 'Z' then (c as int + 32) as char else c
  }

  function Lower(s: string): (r: string)
    ensures |r| == |s|
    ensures forall i :: 0 <= i < |s| ==> r[i] == LowerChar(s[i])
  {
    if s == [] then [] else [LowerChar(s[0])] + Lower(s[1..])
  }

  /** Python's `sub in s` on strings. */
  predicate Contains(s: string, sub: string)
    decreases |s|
  {
    (|sub| <= |s| && s[..|sub|] == sub) || (s != [] && Contains(s[1..], sub))
  }

  /** Path separators under the Windows path rules: both '/' and '\\'.
      The player's default folders are Windows drive and network paths;
      on a POSIX host `os.path.basename` splits at '/' only, which is not
      modelled. */
  predicate IsPathSep(c: char) {
    c == '/' || c == '\\'
  }

  /** os.path.basename: what follows the last path separator. */
  function Basename(p: string): (r: string)
    ensures |r| <= |p| && r == p[|p| - |r|..]
    ensures forall j :: 0 <= j < |r| ==> !IsPathSep(r[j])
    ensures |r| < |p| ==> IsPathSep(p[|p| - |r| - 1])
  {
    if p == [] || IsPathSep(p[|p| - 1]) then []
    else Basename(p[..|p| - 1]) + [p[|p| - 1]]
  }

  /** Python's `s[:n]`: the first n items, all of them when n is past the
      end, and for a negative n all but the last -n. */
  function Take<T>(s: seq<T>, n: int): (r: seq<T>)
    ensures |r| <= |s| && r == s[..|r|]
    ensures 0 <= n ==> |r| == (if n < |s| then n else |s|)
    ensures n < 0 ==> |r| == (if |s| + n < 0 then 0 else |s| + n)
  {
    if n >= |s| then s
    else if n >= 0 then s[..n]
    else if |s| + n >= 0 then s[..|s| + n]
    else []
  }
}
