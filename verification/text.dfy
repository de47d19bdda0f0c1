/** The JavaScript string operations the components use: the `\s` class,
    `toLowerCase`, `trim`, `includes`, and `replace(/X+/g, sep)` for a class X. */
module Text {

  /** JavaScript's `\s` (the characters `trim` removes as well): tab, line
      feed, vertical tab, form feed, carriage return, space, no-break space,
      ogham space mark, the spaces U+2000 to U+200A, line and paragraph
      separators, narrow no-break space, medium mathematical space,
      ideographic space and the byte order mark. */
  predicate IsSpace(c: char)
  {
    || '\t' <= c <= '\r'
    || c == ' '
    || c == '\U{A0}'
    || c == '\U{1680}'
    || '\U{2000}' <= c <= '\U{200A}'
    || c == '\U{2028}' || c == '\U{2029}'
    || c == '\U{202F}' || c == '\U{205F}'
    || c == '\U{3000}' || c == '\U{FEFF}'
  }

  /** The upper-case letters `toLowerCase` changes within the modelled
      range: A to Z and the Latin-1 capitals U+00C0 to U+00DE except the
      multiplication sign U+00D7. */
  predicate IsUpper(c: char)
  {
    'A' <= c <= 'Z' || ('\U{C0}' <= c <= '\U{DE}' && c != '\U{D7}')
  }

  /** `toLowerCase` on one character; each modelled capital sits 32 code
      points below its small letter. */
  function LowerChar(c: char): (r: char)
    ensures !IsUpper(r)
    ensures !IsUpper(c) ==> r == c
  {
    if IsUpper(c) then (c as int + 32) as char else c
  }

  /** `s.toLowerCase()`, character by character. */
  function Lower(s: string): (r: string)
    ensures |r| == |s|
    ensures forall i :: 0 <= i < |s| ==> r[i] == LowerChar(s[i])
  {
    if s == [] then [] else [LowerChar(s[0])] + Lower(s[1..])
  }

  /** Lowering leaves no capital behind. */
  lemma LowerHasNoUpper(s: string)
    ensures forall c :: c in Lower(s) ==> !IsUpper(c)
  {
    forall c | c in Lower(s) ensures !IsUpper(c) {
      var i :| 0 <= i < |Lower(s)| && Lower(s)[i] == c;
    }
  }

  /** Text without capitals is its own lower case. */
  lemma LowerOfLower(s: string)
    requires forall c :: c in s ==> !IsUpper(c)
    ensures Lower(s) == s
  {
    forall i | 0 <= i < |s| ensures Lower(s)[i] == s[i] {
      assert s[i] in s;
    }
  }

  /** Lowering twice equals lowering once. */
  lemma LowerTwice(s: string)
    ensures Lower(Lower(s)) == Lower(s)
  {
    LowerHasNoUpper(s);
    LowerOfLower(Lower(s));
  }

  /** `trimStart`: drop the leading whitespace. */
  function TrimStart(s: string): (r: string)
    decreases |s|
  {
    if s != [] && IsSpace(s[0]) then TrimStart(s[1..]) else s
  }

  /** `trimEnd`: drop the trailing whitespace. */
  function TrimEnd(s: string): (r: string)
    decreases |s|
  {
    if s != [] && IsSpace(s[|s| - 1]) then TrimEnd(s[..|s| - 1]) else s
  }

  /** `s.trim()`. */
  function Trim(s: string): string
  {
    TrimEnd(TrimStart(s))
  }

  lemma {:induction false} TrimStartEmpty(s: string)
    ensures TrimStart(s) == [] <==> forall i :: 0 <= i < |s| ==> IsSpace(s[i])
  {
    if s != [] {
      TrimStartEmpty(s[1..]);
      if IsSpace(s[0]) {
        assert forall i :: 1 <= i < |s| ==> s[i] == s[1..][i - 1];
      }
    }
  }

  lemma {:induction false} TrimEndEmpty(s: string)
    ensures TrimEnd(s) == [] <==> forall i :: 0 <= i < |s| ==> IsSpace(s[i])
  {
    if s != [] {
      TrimEndEmpty(s[..|s| - 1]);
    }
  }

  /** `!s.trim()` holds exactly for the empty text and text made only of
      whitespace. */
  lemma TrimEmpty(s: string)
    ensures Trim(s) == [] <==> forall i :: 0 <= i < |s| ==> IsSpace(s[i])
  {
    TrimStartEmpty(s);
    if TrimStart(s) != [] {
      TrimEndEmpty(TrimStart(s));
      assert !IsSpace(TrimStart(s)[0]) by { TrimStartShape(s); }
    }
  }

  lemma {:induction false} TrimStartShape(s: string)
    ensures TrimStart(s) == [] || !IsSpace(TrimStart(s)[0])
  {
    if s != [] && IsSpace(s[0]) {
      TrimStartShape(s[1..]);
    }
  }

  /** Text without whitespace is its own trim. */
  lemma TrimWithoutSpace(s: string)
    requires forall c :: c in s ==> !IsSpace(c)
    ensures Trim(s) == s
  {
    if s != [] {
      assert s[0] in s && s[|s| - 1] in s;
    }
  }

  /** `s.startsWith(prefix)`. */
  predicate StartsWith(s: string, prefix: string)
  {
    |prefix| <= |s| && s[..|prefix|] == prefix
  }

  /** `s.includes(part)`: `part` occurs somewhere in `s`. */
  predicate Includes(s: string, part: string)
    decreases |s|
  {
    StartsWith(s, part) || (s != [] && Includes(s[1..], part))
  }

  /** `part` occurs in `s` at position `k`. */
  predicate OccursAt(s: string, part: string, k: int)
  {
    0 <= k <= |s| - |part| && s[k..k + |part|] == part
  }

  /** `includes` holds exactly when `part` occurs at some position. */
  lemma {:induction false} IncludesAt(s: string, part: string)
    ensures Includes(s, part) <==> exists k :: OccursAt(s, part, k)
  {
    if s != [] {
      IncludesAt(s[1..], part);
      if exists k :: OccursAt(s, part, k) {
        var k :| OccursAt(s, part, k);
        if k > 0 {
          assert s[1..][k - 1..k - 1 + |part|] == s[k..k + |part|];
          assert OccursAt(s[1..], part, k - 1);
        } else {
          assert StartsWith(s, part);
        }
      }
      if exists k :: OccursAt(s[1..], part, k) {
        var k :| OccursAt(s[1..], part, k);
        assert s[k + 1..k + 1 + |part|] == s[1..][k..k + |part|];
        assert OccursAt(s, part, k + 1);
      }
      if StartsWith(s, part) {
        assert OccursAt(s, part, 0);
      }
    } else {
      if StartsWith(s, part) {
        assert OccursAt(s, part, 0);
      }
    }
  }

  /** The drop of a leading run: the first character that `inRun` rejects
      and everything after it. */
  function SkipRun(s: string, inRun: char -> bool): (r: string)
    ensures |r| <= |s|
    ensures r == [] || !inRun(r[0])
    decreases |s|
  {
    if s != [] && inRun(s[0]) then SkipRun(s[1..], inRun) else s
  }

  /** What is left after a run is a part of the text. */
  lemma {:induction false} SkipRunPart(s: string, inRun: char -> bool)
    ensures forall c :: c in SkipRun(s, inRun) ==> c in s
    decreases |s|
  {
    if s != [] && inRun(s[0]) {
      SkipRunPart(s[1..], inRun);
      assert forall c :: c in s[1..] ==> c in s;
    }
  }

  /** `s.replace(/X+/g, sep)` where `inRun` is the class X: each maximal run
      of characters of the class becomes one `sep`. */
  function ReplaceRuns(s: string, inRun: char -> bool, sep: char): (r: string)
    decreases |s|
  {
    if s == [] then []
    else if inRun(s[0]) then [sep] + ReplaceRuns(SkipRun(s[1..], inRun), inRun, sep)
    else [s[0]] + ReplaceRuns(s[1..], inRun, sep)
  }

  /** Every character of the result is the replacement or a character of
      the input outside the class. */
  lemma {:induction false} ReplaceRunsChars(s: string, inRun: char -> bool, sep: char)
    ensures forall c :: c in ReplaceRuns(s, inRun, sep) ==> c == sep || (c in s && !inRun(c))
    decreases |s|
  {
    if s != [] {
      if inRun(s[0]) {
        var rest := SkipRun(s[1..], inRun);
        ReplaceRunsChars(rest, inRun, sep);
        SkipRunPart(s[1..], inRun);
        assert forall c :: c in s[1..] ==> c in s;
      } else {
        ReplaceRunsChars(s[1..], inRun, sep);
        assert forall c :: c in s[1..] ==> c in s;
      }
    }
  }

  /** Every character of the class left in the result is a replacement and
      is not followed by another character of the class. */
  lemma {:induction false} ReplaceRunsSeparated(s: string, inRun: char -> bool, sep: char)
    ensures forall i :: 0 <= i < |ReplaceRuns(s, inRun, sep)| && inRun(ReplaceRuns(s, inRun, sep)[i]) ==>
      ReplaceRuns(s, inRun, sep)[i] == sep &&
      (i + 1 < |ReplaceRuns(s, inRun, sep)| ==> !inRun(ReplaceRuns(s, inRun, sep)[i + 1]))
    decreases |s|
  {
    var r := ReplaceRuns(s, inRun, sep);
    if s != [] {
      if inRun(s[0]) {
        var rest := SkipRun(s[1..], inRun);
        var tail := ReplaceRuns(rest, inRun, sep);
        ReplaceRunsSeparated(rest, inRun, sep);
        assert r == [sep] + tail;
        if tail != [] {
          assert tail[0] == rest[0];
        }
        forall i | 0 <= i < |r| && inRun(r[i])
          ensures r[i] == sep && (i + 1 < |r| ==> !inRun(r[i + 1]))
        {
          if i > 0 {
            assert r[i] == tail[i - 1];
          }
        }
      } else {
        var tail := ReplaceRuns(s[1..], inRun, sep);
        ReplaceRunsSeparated(s[1..], inRun, sep);
        assert r == [s[0]] + tail;
        forall i | 0 <= i < |r| && inRun(r[i])
          ensures r[i] == sep && (i + 1 < |r| ==> !inRun(r[i + 1]))
        {
          assert i > 0;
          assert r[i] == tail[i - 1];
        }
      }
    }
  }

  /** Text whose class characters are all single replacements is left as
      it is. */
  lemma {:induction false} ReplaceRunsFixed(s: string, inRun: char -> bool, sep: char)
    requires forall i :: 0 <= i < |s| && inRun(s[i]) ==> s[i] == sep && (i + 1 < |s| ==> !inRun(s[i + 1]))
    ensures ReplaceRuns(s, inRun, sep) == s
    decreases |s|
  {
    if s != [] {
      if inRun(s[0]) {
        assert s[1..] == [] || !inRun(s[1..][0]);
        assert SkipRun(s[1..], inRun) == s[1..];
        ReplaceRunsFixed(s[1..], inRun, sep);
        assert s == [sep] + s[1..];
      } else {
        ReplaceRunsFixed(s[1..], inRun, sep);
        assert s == [s[0]] + s[1..];
      }
    }
  }

  /** A character outside the class passes through unchanged. */
  lemma ReplaceRunsCons(x: char, t: string, inRun: char -> bool, sep: char)
    requires !inRun(x)
    ensures ReplaceRuns([x] + t, inRun, sep) == [x] + ReplaceRuns(t, inRun, sep)
  {
    assert ([x] + t)[0] == x && ([x] + t)[1..] == t;
  }

  /** A prefix without class characters passes through unchanged. */
  lemma {:induction false} ReplaceRunsAfterPlain(a: string, b: string, inRun: char -> bool, sep: char)
    requires forall c :: c in a ==> !inRun(c)
    ensures ReplaceRuns(a + b, inRun, sep) == a + ReplaceRuns(b, inRun, sep)
    decreases |a|
  {
    if a == [] {
      assert a + b == b;
    } else {
      var x, t := a[0], a[1..];
      assert x in a;
      assert forall c :: c in t ==> c in a;
      ReplaceRunsAfterPlain(t, b, inRun, sep);
      ReplaceRunsCons(x, t + b, inRun, sep);
      calc {
        ReplaceRuns(a + b, inRun, sep);
        { assert a + b == [x] + (t + b); }
        ReplaceRuns([x] + (t + b), inRun, sep);
        [x] + (t + ReplaceRuns(b, inRun, sep));
        { assert a == [x] + t; }
        a + ReplaceRuns(b, inRun, sep);
      }
    }
  }

  /** Text without class characters is left as it is. */
  lemma {:induction false} ReplaceRunsNone(s: string, inRun: char -> bool, sep: char)
    requires forall c :: c in s ==> !inRun(c)
    ensures ReplaceRuns(s, inRun, sep) == s
    decreases |s|
  {
    if s != [] {
      assert s == [s[0]] + s[1..];
      assert s[0] in s;
      ReplaceRunsCons(s[0], s[1..], inRun, sep);
      assert forall c :: c in s[1..] ==> c in s;
      ReplaceRunsNone(s[1..], inRun, sep);
    }
  }

  /** Lowering works character by character, so it distributes over
      concatenation. */
  lemma LowerAppend(a: string, b: string)
    ensures Lower(a + b) == Lower(a) + Lower(b)
  {
    var l, r := Lower(a + b), Lower(a) + Lower(b);
    forall i | 0 <= i < |l| ensures l[i] == r[i] {
      if i < |a| {
        assert (a + b)[i] == a[i];
      } else {
        assert (a + b)[i] == b[i - |a|];
      }
    }
    assert l == r;
  }

  /** A lone class character followed by text that does not start with
      one becomes one replacement. */
  lemma ReplaceLone(x: char, b: string, inRun: char -> bool, sep: char)
    requires inRun(x) && (b == [] || !inRun(b[0]))
    ensures ReplaceRuns([x] + b, inRun, sep) == [sep] + ReplaceRuns(b, inRun, sep)
  {
    assert ([x] + b)[1..] == b;
    assert SkipRun(([x] + b)[1..], inRun) == b;
  }

  /** A prefix without class characters, then a lone class character: the
      prefix passes through and the character becomes one replacement. */
  lemma ReplacePlainThenLone(a: string, x: char, rest: string, inRun: char -> bool, sep: char)
    requires forall c :: c in a ==> !inRun(c)
    requires inRun(x) && (rest == [] || !inRun(rest[0]))
    ensures ReplaceRuns(a + [x] + rest, inRun, sep) == a + [sep] + ReplaceRuns(rest, inRun, sep)
  {
    calc {
      ReplaceRuns(a + [x] + rest, inRun, sep);
      { assert a + [x] + rest == a + ([x] + rest); }
      ReplaceRuns(a + ([x] + rest), inRun, sep);
      { ReplaceRunsAfterPlain(a, [x] + rest, inRun, sep); }
      a + ReplaceRuns([x] + rest, inRun, sep);
      { ReplaceLone(x, rest, inRun, sep); }
      a + ([sep] + ReplaceRuns(rest, inRun, sep));
      a + [sep] + ReplaceRuns(rest, inRun, sep);
    }
  }

  /** A text without class characters between two lone class characters:
      each of the two becomes one replacement. */
  lemma ReplaceLoneAround(x: char, w: string, inRun: char -> bool, sep: char)
    requires inRun(x) && w != [] && forall c :: c in w ==> !inRun(c)
    ensures ReplaceRuns([x] + w + [x], inRun, sep) == [sep] + w + [sep]
  {
    ReplacePlainThenLone(w, x, [], inRun, sep);
    assert w + [x] + [] == w + [x];
    assert w[0] in w && (w + [x])[0] == w[0];
    ReplaceLone(x, w + [x], inRun, sep);
    assert [x] + w + [x] == [x] + (w + [x]);
    assert [sep] + (w + [sep] + []) == [sep] + w + [sep];
  }
}
