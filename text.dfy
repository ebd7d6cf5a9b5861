/** String primitives of JavaScript that the validators and parsers rely on:
    `String.prototype.trim`, UTF-16 length and splitting on a separator. */
module Text {

  /** The WhiteSpace and LineTerminator code points of ECMAScript, which `trim`
      and `parseInt` skip. */
  predicate IsSpace(c: char)
  {
    c == '\t' || c == '\n' || c == '\U{000B}' || c == '\U{000C}' || c == '\r' || c == ' '
    || c == '\U{00A0}' || c == '\U{1680}' || ('\U{2000}' <= c <= '\U{200A}')
    || c == '\U{2028}' || c == '\U{2029}' || c == '\U{202F}' || c == '\U{205F}'
    || c == '\U{3000}' || c == '\U{FEFF}'
  }

  /** `trimStart`: the suffix left after dropping the leading white space. */
  function TrimStart(s: string): string
  {
    if |s| > 0 && IsSpace(s[0]) then TrimStart(s[1..]) else s
  }

  /** TrimStart keeps a suffix, drops only white space, and the suffix starts with no white space. */
  lemma {:induction false} TrimStartFacts(s: string)
    ensures |TrimStart(s)| <= |s| && TrimStart(s) == s[|s| - |TrimStart(s)|..]
    ensures forall k :: 0 <= k < |s| - |TrimStart(s)| ==> IsSpace(s[k])
    ensures TrimStart(s) == [] || !IsSpace(TrimStart(s)[0])
  {
    if |s| > 0 && IsSpace(s[0]) {
      TrimStartFacts(s[1..]);
      forall k | 1 <= k < |s| - |TrimStart(s)| ensures IsSpace(s[k]) {
        assert s[k] == s[1..][k - 1];
      }
    }
  }

  /** `trimEnd`: the prefix left after dropping the trailing white space. */
  function TrimEnd(s: string): string
  {
    if |s| > 0 && IsSpace(s[|s| - 1]) then TrimEnd(s[..|s| - 1]) else s
  }

  /** TrimEnd keeps a prefix, drops only white space, and the prefix ends with no white space. */
  lemma {:induction false} TrimEndFacts(s: string)
    ensures |TrimEnd(s)| <= |s| && TrimEnd(s) == s[..|TrimEnd(s)|]
    ensures forall k :: |TrimEnd(s)| <= k < |s| ==> IsSpace(s[k])
    ensures TrimEnd(s) == [] || !IsSpace(TrimEnd(s)[|TrimEnd(s)| - 1])
  {
    if |s| > 0 && IsSpace(s[|s| - 1]) {
      TrimEndFacts(s[..|s| - 1]);
      forall k | |TrimEnd(s)| <= k < |s| - 1 ensures IsSpace(s[k]) {
        assert s[k] == s[..|s| - 1][k];
      }
    }
  }

  /** `String.prototype.trim`. */
  function Trim(s: string): (r: string)
    ensures |r| <= |s|
    ensures r == [] || (!IsSpace(r[0]) && !IsSpace(r[|r| - 1]))
  {
    TrimStartFacts(s);
    TrimEndFacts(TrimStart(s));
    var r := TrimEnd(TrimStart(s));
    assert r != [] ==> r[0] == TrimStart(s)[0];
    r
  }

  /** Trim keeps exactly the slice between the leading and the trailing white space:
      any slice of s with white space all around it and no white space at its ends is Trim(s). */
  lemma TrimIsCore(s: string, i: nat, j: nat)
    requires i <= j <= |s|
    requires forall k :: 0 <= k < i ==> IsSpace(s[k])
    requires forall k :: j <= k < |s| ==> IsSpace(s[k])
    requires i < j ==> !IsSpace(s[i]) && !IsSpace(s[j - 1])
    ensures Trim(s) == s[i..j]
  {
    var t := TrimStart(s);
    TrimStartFacts(s);
    TrimEndFacts(t);
    var m := |s| - |t|;
    assert m < |s| ==> t[0] == s[m];
    if i < j {
      assert !IsSpace(s[i]);
      assert m == i;
      assert t == s[i..];
      var u := TrimEnd(t);
      assert 0 < |u| ==> u[|u| - 1] == s[i + |u| - 1];
      assert t[j - i - 1] == s[j - 1];
      assert |u| == j - i;
    } else {
      assert t == [];
    }
  }

  /** Trim characterised without reference to its definition. */
  lemma TrimShape(s: string) returns (i: nat)
    ensures i + |Trim(s)| <= |s| && Trim(s) == s[i..i + |Trim(s)|]
    ensures forall k :: 0 <= k < i ==> IsSpace(s[k])
    ensures forall k :: i + |Trim(s)| <= k < |s| ==> IsSpace(s[k])
    ensures Trim(s) == [] || (!IsSpace(Trim(s)[0]) && !IsSpace(Trim(s)[|Trim(s)| - 1]))
  {
    var t := TrimStart(s);
    TrimStartFacts(s);
    TrimEndFacts(t);
    i := |s| - |t|;
    var u := TrimEnd(t);
    assert u == t[..|u|];
    forall k | i + |u| <= k < |s| ensures IsSpace(s[k]) {
      assert s[k] == t[k - i];
    }
    if u != [] {
      assert u[0] == t[0];
    }
  }

  /** Trimming twice is trimming once. */
  lemma TrimIdempotent(s: string)
    ensures Trim(Trim(s)) == Trim(s)
  {
    var t := Trim(s);
    var _ := TrimShape(s);
    TrimIsCore(t, 0, |t|);
  }

  /** A trimmed string that is empty came from white space only. */
  lemma TrimEmpty(s: string)
    requires Trim(s) == []
    ensures TrimStart(s) == []
  {
    var t := TrimStart(s);
    TrimStartFacts(s);
    TrimEndFacts(t);
    assert forall k :: 0 <= k < |t| ==> IsSpace(t[k]);
  }

  /** After trimming at the start, what remains is the trimmed string followed by white space. */
  lemma TrimStartSplits(s: string)
    ensures |Trim(s)| <= |TrimStart(s)|
    ensures TrimStart(s) == Trim(s) + TrimStart(s)[|Trim(s)|..]
    ensures forall k :: |Trim(s)| <= k < |TrimStart(s)| ==> IsSpace(TrimStart(s)[k])
  {
    TrimEndFacts(TrimStart(s));
  }

  /** White space added around a string is trimmed away again. */
  lemma {:induction false} TrimPadded(s: string, pre: string, post: string)
    requires forall k :: 0 <= k < |pre| ==> IsSpace(pre[k])
    requires forall k :: 0 <= k < |post| ==> IsSpace(post[k])
    ensures Trim(pre + s + post) == Trim(s)
  {
    var x := pre + s + post;
    var t := Trim(s);
    var i := TrimShape(s);
    var a, b := |pre| + i, |pre| + i + |t|;
    forall k | 0 <= k < a ensures IsSpace(x[k]) {
      if k < |pre| { assert x[k] == pre[k]; } else { assert x[k] == s[k - |pre|]; }
    }
    forall k | b <= k < |x| ensures IsSpace(x[k]) {
      if k < |pre| + |s| { assert x[k] == s[k - |pre|]; } else { assert x[k] == post[k - |pre| - |s|]; }
    }
    assert x[a..b] == t by {
      forall k | 0 <= k < |t| ensures x[a + k] == t[k] {
        assert x[a + k] == s[i + k];
      }
    }
    assert a < b ==> x[a] == t[0] && x[b - 1] == t[|t| - 1];
    assert a < b ==> !IsSpace(x[a]) && !IsSpace(x[b - 1]);
    TrimIsCore(x, a, b);
    assert Trim(x) == t;
  }

  /** `string.length`: the number of UTF-16 code units, two for a code point above U+FFFF. */
  function Utf16Length(s: string): (n: nat)
    ensures |s| <= n <= 2 * |s|
    ensures (forall k :: 0 <= k < |s| ==> s[k] as int <= 0xFFFF) ==> n == |s|
  {
    |s| + Astral(s)
  }

  /** The number of code points above U+FFFF, each of which takes two UTF-16 units. */
  function Astral(s: string): (n: nat)
    ensures n <= |s|
    ensures (forall k :: 0 <= k < |s| ==> s[k] as int <= 0xFFFF) ==> n == 0
  {
    if s == [] then 0 else (if s[|s| - 1] as int > 0xFFFF then 1 else 0) + Astral(s[..|s| - 1])
  }

  /** `s.split(sep)` for a one-character separator: the maximal pieces between separators. */
  function Split(s: string, sep: char): (r: seq<string>)
    ensures |r| >= 1
    ensures forall k :: 0 <= k < |r| ==> sep !in r[k]
  {
    if s == [] then [[]]
    else
      var rest := Split(s[1..], sep);
      if s[0] == sep then [[]] + rest else [[s[0]] + rest[0]] + rest[1..]
  }

  /** Pieces glued back with the separator. */
  function Join(pieces: seq<string>, sep: char): string
    requires |pieces| >= 1
  {
    if |pieces| == 1 then pieces[0] else pieces[0] + [sep] + Join(pieces[1..], sep)
  }

  /** Splitting loses nothing: joining the pieces gives back the string. */
  lemma {:induction false} SplitJoin(s: string, sep: char)
    ensures Join(Split(s, sep), sep) == s
  {
    if s != [] {
      var rest := Split(s[1..], sep);
      SplitJoin(s[1..], sep);
      if s[0] == sep {
        assert Split(s, sep)[1..] == rest;
      } else {
        var r := Split(s, sep);
        if |rest| == 1 {
          assert r == [[s[0]] + rest[0]];
        } else {
          assert r[1..] == rest[1..];
          assert Join(rest, sep) == rest[0] + [sep] + Join(rest[1..], sep);
        }
      }
    }
  }

  /** A separator-free head is the first piece, and the rest is split on its own. */
  lemma {:induction false} SplitAfterPiece(a: string, sep: char, rest: string)
    requires sep !in a
    ensures Split(a + [sep] + rest, sep) == [a] + Split(rest, sep)
  {
    if a == [] {
      assert a + [sep] + rest == [sep] + rest;
      assert ([sep] + rest)[1..] == rest;
    } else {
      var s := a + [sep] + rest;
      assert s[0] == a[0];
      assert s[1..] == a[1..] + [sep] + rest;
      SplitAfterPiece(a[1..], sep, rest);
      assert [a[0]] + a[1..] == a;
    }
  }

  /** There are two pieces or more exactly when the separator occurs. */
  lemma {:induction false} SplitHasPieces(s: string, sep: char)
    ensures |Split(s, sep)| >= 2 <==> sep in s
  {
    if s != [] {
      SplitHasPieces(s[1..], sep);
      assert s == [s[0]] + s[1..];
      assert sep in s <==> s[0] == sep || sep in s[1..];
    }
  }
}
