/** The two forms of Python's `str.split` the application uses:
    `s.split(sep)` with a one-character separator (splitting a catalogue path
    on '.') and `s.split()` with no argument (splitting the query into
    whitespace-delimited tokens). */
module TextSplit {

  // ---------------------------------------------------------------------
  // s.split(sep)

  /** `s.split(sep)`: the pieces between occurrences of `sep`, empty pieces
      included, so there is always one more piece than there are separators
      (`"".split(".") == [""]`, `"a..b".split(".") == ["a", "", "b"]`). */
  function SplitOn(s: string, sep: char): (parts: seq<string>)
    ensures |parts| >= 1
    decreases |s|
  {
    if s == [] then [[]]
    else
      var rest := SplitOn(s[1..], sep);
      if s[0] == sep then [[]] + rest
      else [[s[0]] + rest[0]] + rest[1..]
  }

  /** `sep.join(parts)`: the inverse of SplitOn. */
  function JoinWith(parts: seq<string>, sep: char): string
    requires |parts| >= 1
    decreases |parts|
  {
    if |parts| == 1 then parts[0]
    else parts[0] + [sep] + JoinWith(parts[1..], sep)
  }

  /** No piece of a split contains the separator. */
  ghost predicate FreeOf(parts: seq<string>, sep: char) {
    forall i :: 0 <= i < |parts| ==> sep !in parts[i]
  }

  lemma {:induction false} SplitFreeOf(s: string, sep: char)
    ensures FreeOf(SplitOn(s, sep), sep)
    decreases |s|
  {
    if s != [] {
      SplitFreeOf(s[1..], sep);
      var rest := SplitOn(s[1..], sep);
      if s[0] != sep {
        var parts := SplitOn(s, sep);
        forall i | 0 <= i < |parts| ensures sep !in parts[i] {
          if i == 0 {
            assert parts[0] == [s[0]] + rest[0];
          } else {
            assert parts[i] == rest[i];
          }
        }
      }
    }
  }

  /** Joining the pieces back with the separator restores the string. */
  lemma {:induction false} JoinSplit(s: string, sep: char)
    ensures JoinWith(SplitOn(s, sep), sep) == s
    decreases |s|
  {
    if s != [] {
      JoinSplit(s[1..], sep);
      var rest := SplitOn(s[1..], sep);
      if s[0] == sep {
        assert SplitOn(s, sep)[1..] == rest;
      } else {
        var parts := SplitOn(s, sep);
        if |rest| == 1 {
          assert parts == [[s[0]] + rest[0]];
        } else {
          assert parts[1..] == rest[1..];
          assert JoinWith(rest, sep) == rest[0] + [sep] + JoinWith(rest[1..], sep);
        }
      }
    }
  }

  /** Splitting a join of separator-free pieces gives back the pieces. */
  lemma {:induction false} SplitJoin(parts: seq<string>, sep: char)
    requires |parts| >= 1 && FreeOf(parts, sep)
    ensures SplitOn(JoinWith(parts, sep), sep) == parts
    decreases |parts|, |parts[0]|
  {
    var p := parts[0];
    if |parts| == 1 {
      SplitNoSep(p, sep);
    } else if p == [] {
      var tail := JoinWith(parts[1..], sep);
      assert JoinWith(parts, sep) == [sep] + tail;
      assert ([sep] + tail)[1..] == tail;
      SplitJoin(parts[1..], sep);
    } else {
      var shorter := [p[1..]] + parts[1..];
      assert FreeOf(shorter, sep) by {
        forall i | 0 <= i < |shorter| ensures sep !in shorter[i] {
          if i == 0 { assert p[0] !in p[1..] || p[0] in p; }
          else { assert shorter[i] == parts[i]; }
        }
      }
      SplitJoin(shorter, sep);
      var whole := JoinWith(parts, sep);
      assert JoinWith(shorter, sep) == p[1..] + [sep] + JoinWith(parts[1..], sep);
      assert whole == [p[0]] + JoinWith(shorter, sep);
      assert whole[0] == p[0] != sep;
      assert whole[1..] == JoinWith(shorter, sep);
      assert [p[0]] + p[1..] == p;
    }
  }

  lemma {:induction false} SplitNoSep(s: string, sep: char)
    requires sep !in s
    ensures SplitOn(s, sep) == [s]
    decreases |s|
  {
    if s != [] {
      SplitNoSep(s[1..], sep);
      assert [s[0]] + s[1..] == s;
    }
  }

  // ---------------------------------------------------------------------
  // s.split()

  /** The characters Python's `str.isspace` accepts, which are the ones
      `str.split()` with no argument splits on. */
  const Whitespace: set<char> := {
    '\t', '\n', '\U{0B}', '\U{0C}', '\r', '\U{1C}', '\U{1D}', '\U{1E}', '\U{1F}', ' ',
    '\U{85}', '\U{A0}', '\U{1680}',
    '\U{2000}', '\U{2001}', '\U{2002}', '\U{2003}', '\U{2004}', '\U{2005}',
    '\U{2006}', '\U{2007}', '\U{2008}', '\U{2009}', '\U{200A}',
    '\U{2028}', '\U{2029}', '\U{202F}', '\U{205F}', '\U{3000}'
  }

  predicate IsSpace(c: char) {
    c in Whitespace
  }

  ghost predicate AllSpace(s: string) {
    forall i :: 0 <= i < |s| ==> IsSpace(s[i])
  }

  ghost predicate NoSpace(s: string) {
    forall i :: 0 <= i < |s| ==> !IsSpace(s[i])
  }

  /** Number of leading whitespace characters of `s`. */
  function SpaceRun(s: string): (n: nat)
    ensures n <= |s|
    ensures n < |s| ==> !IsSpace(s[n])
    decreases |s|
  {
    if s != [] && IsSpace(s[0]) then 1 + SpaceRun(s[1..]) else 0
  }

  /** Number of leading non-whitespace characters of `s`. */
  function WordRun(s: string): (n: nat)
    ensures n <= |s|
    ensures n < |s| ==> IsSpace(s[n])
    decreases |s|
  {
    if s != [] && !IsSpace(s[0]) then 1 + WordRun(s[1..]) else 0
  }

  lemma {:induction false} SpaceRunAllSpace(s: string)
    ensures AllSpace(s[..SpaceRun(s)])
    decreases |s|
  {
    if s != [] && IsSpace(s[0]) {
      SpaceRunAllSpace(s[1..]);
      assert forall i :: 1 <= i < SpaceRun(s) ==> s[..SpaceRun(s)][i] == s[1..][..SpaceRun(s[1..])][i - 1];
    }
  }

  lemma {:induction false} WordRunNoSpace(s: string)
    ensures NoSpace(s[..WordRun(s)])
    decreases |s|
  {
    if s != [] && !IsSpace(s[0]) {
      WordRunNoSpace(s[1..]);
      assert forall i :: 1 <= i < WordRun(s) ==> s[..WordRun(s)][i] == s[1..][..WordRun(s[1..])][i - 1];
    }
  }

  /** `s.split()`: the maximal runs of non-whitespace characters, in order;
      leading, trailing and repeated whitespace produce no empty tokens. */
  function Words(s: string): (ws: seq<string>)
    ensures |ws| <= |s|
    ensures forall i :: 0 <= i < |ws| ==> |ws[i]| > 0
    decreases |s|
  {
    var t := s[SpaceRun(s)..];
    if t == [] then []
    else
      var n := WordRun(t);
      [t[..n]] + Words(t[n..])
  }

  /** The characters of `s` that are not whitespace, in order. */
  function Unspaced(s: string): string {
    if s == [] then []
    else (if IsSpace(s[0]) then [] else [s[0]]) + Unspaced(s[1..])
  }

  function Concat(ws: seq<string>): string {
    if ws == [] then [] else ws[0] + Concat(ws[1..])
  }

  /** A token: non-empty and free of whitespace. */
  ghost predicate IsWord(w: string) {
    |w| > 0 && NoSpace(w)
  }

  lemma {:induction false} UnspacedAppend(a: string, b: string)
    ensures Unspaced(a + b) == Unspaced(a) + Unspaced(b)
    decreases |a|
  {
    if a != [] {
      assert (a + b)[1..] == a[1..] + b;
      UnspacedAppend(a[1..], b);
    } else {
      assert a + b == b;
    }
  }

  lemma {:induction false} UnspacedAllSpace(s: string)
    requires AllSpace(s)
    ensures Unspaced(s) == []
    decreases |s|
  {
    if s != [] { UnspacedAllSpace(s[1..]); }
  }

  lemma {:induction false} UnspacedNoSpace(s: string)
    requires NoSpace(s)
    ensures Unspaced(s) == s
    decreases |s|
  {
    if s != [] { UnspacedNoSpace(s[1..]); }
  }

  /** Every token of `s.split()` is non-empty and whitespace-free, and
      together the tokens hold exactly the non-whitespace characters of `s`
      in their original order. */
  lemma WordsSound(s: string)
    ensures forall i :: 0 <= i < |Words(s)| ==> IsWord(Words(s)[i])
    ensures Concat(Words(s)) == Unspaced(s)
  {
    WordsAreWords(s);
    WordsConcat(s);
  }

  lemma {:induction false} WordsAreWords(s: string)
    ensures forall i :: 0 <= i < |Words(s)| ==> IsWord(Words(s)[i])
    decreases |s|
  {
    var t := s[SpaceRun(s)..];
    if t != [] {
      var n := WordRun(t);
      var w, rest := t[..n], Words(t[n..]);
      WordRunNoSpace(t);
      WordsAreWords(t[n..]);
      assert Words(s) == [w] + rest;
      forall i | 0 <= i < |Words(s)| ensures IsWord(Words(s)[i]) {
        if i > 0 { assert Words(s)[i] == rest[i - 1]; }
      }
    }
  }

  /** When `s` is not all whitespace it is an all-whitespace prefix followed
      by `t`; the first token is the maximal run of non-whitespace characters
      that starts `t`, ending at whitespace or at the end of `s`, and the
      remaining tokens are those of what follows that run. With WordsEmptyIff
      this determines `s.split()` completely. */
  lemma WordsFirst(s: string)
    requires !AllSpace(s)
    ensures var k := SpaceRun(s); var t := s[k..]; var n := WordRun(t);
      && s == s[..k] + t && AllSpace(s[..k])
      && 0 < n <= |t| && NoSpace(t[..n]) && (n == |t| || IsSpace(t[n]))
      && Words(s) == [t[..n]] + Words(t[n..])
  {
    var k := SpaceRun(s);
    SpaceRunAllSpace(s);
    var t := s[k..];
    assert !IsSpace(t[0]);
    var n := WordRun(t);
    assert 0 < n;
    WordRunNoSpace(t);
    assert s == s[..k] + t;
    assert Words(s) == [t[..n]] + Words(t[n..]);
  }

  /** The first token, located in `s`: it starts right after the leading
      whitespace and ends at the end of `s` or at a whitespace character. */
  lemma WordsHead(s: string)
    requires !AllSpace(s)
    ensures |Words(s)| > 0
    ensures SpaceRun(s) + |Words(s)[0]| <= |s|
    ensures AllSpace(s[..SpaceRun(s)])
    ensures s[SpaceRun(s)..SpaceRun(s) + |Words(s)[0]|] == Words(s)[0]
    ensures var e := SpaceRun(s) + |Words(s)[0]|; e == |s| || IsSpace(s[e])
  {
    WordsFirst(s);
    var k := SpaceRun(s);
    var t := s[k..];
    var n := WordRun(t);
    var w := Words(s)[0];
    assert w == t[..n];
    assert t[..n] == s[k..k + n];
    if k + n < |s| {
      assert s[k + n] == t[n];
    }
  }

  lemma {:induction false} WordsConcat(s: string)
    ensures Concat(Words(s)) == Unspaced(s)
    decreases |s|
  {
    var t := s[SpaceRun(s)..];
    UnspacedSkipSpace(s);
    if t != [] {
      var n := WordRun(t);
      var w, r := t[..n], t[n..];
      assert Words(s) == [w] + Words(r);
      assert ([w] + Words(r))[1..] == Words(r);
      WordsConcat(r);
      UnspacedSkipWord(t);
    }
  }

  lemma UnspacedSkipSpace(s: string)
    ensures Unspaced(s) == Unspaced(s[SpaceRun(s)..])
  {
    var k := SpaceRun(s);
    assert s == s[..k] + s[k..];
    SpaceRunAllSpace(s);
    UnspacedAppend(s[..k], s[k..]);
    UnspacedAllSpace(s[..k]);
  }

  lemma UnspacedSkipWord(t: string)
    ensures Unspaced(t) == t[..WordRun(t)] + Unspaced(t[WordRun(t)..])
  {
    var n := WordRun(t);
    assert t == t[..n] + t[n..];
    UnspacedAppend(t[..n], t[n..]);
    WordRunNoSpace(t);
    UnspacedNoSpace(t[..n]);
  }

  /** `s.split()` is empty exactly when `s` is all whitespace. */
  lemma WordsEmptyIff(s: string)
    ensures Words(s) == [] <==> AllSpace(s)
  {
    var k := SpaceRun(s);
    if k < |s| {
      assert !IsSpace(s[k]);
    } else {
      SpaceRunAllSpace(s);
      assert s[..k] == s;
    }
  }

  lemma {:induction false} WordRunPrefix(w: string, rest: string)
    requires NoSpace(w) && (rest == [] || IsSpace(rest[0]))
    ensures WordRun(w + rest) == |w|
    decreases |w|
  {
    if w == [] {
      assert w + rest == rest;
    } else {
      assert (w + rest)[1..] == w[1..] + rest;
      WordRunPrefix(w[1..], rest);
    }
  }

  /** A token followed by whitespace or the end is the first token. */
  lemma WordsLeadingWord(w: string, rest: string)
    requires IsWord(w) && (rest == [] || IsSpace(rest[0]))
    ensures Words(w + rest) == [w] + Words(rest)
  {
    var s := w + rest;
    assert s[0] == w[0];
    assert SpaceRun(s) == 0;
    assert s[0..] == s;
    WordRunPrefix(w, rest);
    assert s[..|w|] == w && s[|w|..] == rest;
  }

  /** Leading whitespace produces no token. */
  lemma WordsLeadingSpace(c: char, t: string)
    requires IsSpace(c)
    ensures Words([c] + t) == Words(t)
  {
    var s := [c] + t;
    assert s[1..] == t;
    assert SpaceRun(s) == 1 + SpaceRun(t);
    assert s[SpaceRun(s)..] == t[SpaceRun(t)..];
  }

  /** Tokens joined by single spaces split back into the same tokens. */
  lemma {:induction false} WordsJoin(ws: seq<string>)
    requires |ws| >= 1 && forall i :: 0 <= i < |ws| ==> IsWord(ws[i])
    ensures Words(JoinWith(ws, ' ')) == ws
    decreases |ws|
  {
    var w := ws[0];
    if |ws| == 1 {
      WordsLeadingWord(w, []);
      assert w + [] == w;
    } else {
      var tail := JoinWith(ws[1..], ' ');
      assert JoinWith(ws, ' ') == w + ([' '] + tail);
      WordsLeadingWord(w, [' '] + tail);
      WordsLeadingSpace(' ', tail);
      WordsJoin(ws[1..]);
    }
  }
}
