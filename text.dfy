/** The JavaScript string operations the handlers rely on:
    `trim`, `toLowerCase`, `startsWith` and `split(".").pop()`. */
module Text {

  /** WhiteSpace and LineTerminator code points that `String.prototype.trim` removes. */
  predicate IsWhitespace(c: char) {
    var k := c as int;
    k == 0x09 || k == 0x0A || k == 0x0B || k == 0x0C || k == 0x0D || k == 0x20
    || k == 0xA0 || k == 0x1680 || (0x2000 <= k <= 0x200A) || k == 0x2028
    || k == 0x2029 || k == 0x202F || k == 0x205F || k == 0x3000 || k == 0xFEFF
  }

  predicate AllWhitespace(s: string) {
    forall i :: 0 <= i < |s| ==> IsWhitespace(s[i])
  }

  /** No whitespace at either end. */
  predicate IsTrimmed(s: string) {
    s == [] || (!IsWhitespace(s[0]) && !IsWhitespace(s[|s| - 1]))
  }

  /** Drops the leading whitespace: the result is the suffix that starts at
      the first non-whitespace character. */
  function TrimStart(s: string): (r: string)
    ensures |r| <= |s| && r == s[|s| - |r|..]
    ensures r == [] || !IsWhitespace(r[0])
  {
    if s != [] && IsWhitespace(s[0]) then TrimStart(s[1..]) else s
  }

  /** What `TrimStart` drops is whitespace. */
  lemma {:induction false} TrimStartDropsWhitespace(s: string)
    ensures AllWhitespace(s[..|s| - |TrimStart(s)|])
  {
    if s != [] && IsWhitespace(s[0]) {
      TrimStartDropsWhitespace(s[1..]);
      var n := |s| - |TrimStart(s)|;
      assert s[..n] == [s[0]] + s[1..][..n - 1];
    }
  }

  /** Drops the trailing whitespace: the result is the prefix that ends at
      the last non-whitespace character. */
  function TrimEnd(s: string): (r: string)
    ensures |r| <= |s| && r == s[..|r|]
    ensures r == [] || !IsWhitespace(r[|r| - 1])
  {
    if s != [] && IsWhitespace(s[|s| - 1]) then TrimEnd(s[..|s| - 1]) else s
  }

  /** What `TrimEnd` drops is whitespace. */
  lemma {:induction false} TrimEndDropsWhitespace(s: string)
    ensures AllWhitespace(s[|TrimEnd(s)|..])
  {
    if s != [] && IsWhitespace(s[|s| - 1]) {
      var init := s[..|s| - 1];
      TrimEndDropsWhitespace(init);
      var n := |TrimEnd(s)|;
      assert s[n..] == init[n..] + [s[|s| - 1]];
    }
  }

  /** `s.trim()`: no longer than `s`, and no whitespace left at its ends. */
  function Trim(s: string): (r: string)
    ensures |r| <= |s| && IsTrimmed(r)
  {
    var a := TrimStart(s);
    var r := TrimEnd(a);
    assert r != [] ==> r[0] == a[0];
    r
  }

  /** What `trim` keeps is a contiguous slice of `s` with only whitespace cut
      away on both sides. */
  lemma TrimIsSlice(s: string)
    ensures exists i :: (0 <= i <= |s| - |Trim(s)| && Trim(s) == s[i..i + |Trim(s)|]
                         && AllWhitespace(s[..i]) && AllWhitespace(s[i + |Trim(s)|..]))
  {
    var a := TrimStart(s);
    var r := TrimEnd(a);
    assert r == Trim(s);
    TrimStartDropsWhitespace(s);
    TrimEndDropsWhitespace(a);
    var i := |s| - |a|;
    assert a == s[i..];
    assert r == a[..|r|];
    assert r == s[i..i + |r|];
    assert s[i + |r|..] == a[|r|..];
    assert AllWhitespace(s[..i]) && AllWhitespace(s[i + |r|..]);
  }

  /** An input that trims to nothing is made of whitespace only, and conversely. */
  lemma TrimEmptyIffBlank(s: string)
    ensures Trim(s) == [] <==> AllWhitespace(s)
  {
    TrimIsSlice(s);
    if Trim(s) == [] {
      var i :| 0 <= i <= |s| && AllWhitespace(s[..i]) && AllWhitespace(s[i..]);
      forall k | 0 <= k < |s| ensures IsWhitespace(s[k]) {
        if k < i { assert s[k] == s[..i][k]; } else { assert s[k] == s[i..][k - i]; }
      }
    }
  }

  lemma {:induction false} TrimStartOfTrimmed(s: string)
    requires s == [] || !IsWhitespace(s[0])
    ensures TrimStart(s) == s
  {
  }

  lemma {:induction false} TrimEndOfTrimmed(s: string)
    requires s == [] || !IsWhitespace(s[|s| - 1])
    ensures TrimEnd(s) == s
  {
  }

  /** Trimming a string that has no whitespace at its ends changes nothing. */
  lemma TrimOfTrimmed(s: string)
    requires IsTrimmed(s)
    ensures Trim(s) == s
  {
    TrimStartOfTrimmed(s);
    TrimEndOfTrimmed(s);
  }

  /** Leading whitespace in front of `y` makes no difference to `TrimStart`. */
  lemma {:induction false} TrimStartAfterWhitespace(p: string, y: string)
    requires AllWhitespace(p)
    ensures TrimStart(p + y) == TrimStart(y)
    decreases |p|
  {
    if p == [] {
      assert p + y == y;
    } else {
      assert (p + y)[0] == p[0] && (p + y)[1..] == p[1..] + y;
      TrimStartAfterWhitespace(p[1..], y);
    }
  }

  /** Trailing whitespace after `y` makes no difference to `TrimEnd`. */
  lemma {:induction false} TrimEndBeforeWhitespace(y: string, q: string)
    requires AllWhitespace(q)
    ensures TrimEnd(y + q) == TrimEnd(y)
    decreases |q|
  {
    if q == [] {
      assert y + q == y;
    } else {
      var yq := y + q;
      assert yq[|yq| - 1] == q[|q| - 1] && yq[..|yq| - 1] == y + q[..|q| - 1];
      TrimEndBeforeWhitespace(y, q[..|q| - 1]);
    }
  }

  /** When `x` holds something besides whitespace, `TrimStart` stops inside
      it, so whatever follows is kept whole. */
  lemma {:induction false} TrimStartBeforeSuffix(x: string, q: string)
    requires !AllWhitespace(x)
    ensures TrimStart(x + q) == TrimStart(x) + q
  {
    assert (x + q)[0] == x[0];
    if IsWhitespace(x[0]) {
      assert (x + q)[1..] == x[1..] + q;
      assert !AllWhitespace(x[1..]) by {
        var k :| 0 <= k < |x| && !IsWhitespace(x[k]);
        assert x[1..][k - 1] == x[k];
      }
      TrimStartBeforeSuffix(x[1..], q);
    }
  }

  /** Whitespace padding on either side does not change what `trim` returns. */
  lemma TrimIgnoresPadding(p: string, x: string, q: string)
    requires AllWhitespace(p) && AllWhitespace(q)
    ensures Trim(p + x + q) == Trim(x)
  {
    var s := p + x + q;
    assert s == p + (x + q);
    if AllWhitespace(x) {
      assert AllWhitespace(s) by {
        forall k | 0 <= k < |s| ensures IsWhitespace(s[k]) {
          if k < |p| { assert s[k] == p[k]; }
          else if k < |p| + |x| { assert s[k] == x[k - |p|]; }
          else { assert s[k] == q[k - |p| - |x|]; }
        }
      }
      TrimEmptyIffBlank(s);
      TrimEmptyIffBlank(x);
    } else {
      TrimStartAfterWhitespace(p, x + q);
      TrimStartBeforeSuffix(x, q);
      TrimEndBeforeWhitespace(TrimStart(x), q);
    }
  }

  /** `s.startsWith(prefix)`, compared one character at a time: holds
      exactly when `prefix` is the first `|prefix|` characters of `s`. */
  predicate StartsWith(s: string, prefix: string): (b: bool)
    ensures b <==> |prefix| <= |s| && s[..|prefix|] == prefix
  {
    if prefix == [] then true
    else if s == [] || s[0] != prefix[0] then false
    else
      var b := StartsWith(s[1..], prefix[1..]);
      assert |prefix| <= |s| ==> s[..|prefix|] == [s[0]] + s[1..][..|prefix| - 1];
      assert prefix == [prefix[0]] + prefix[1..];
      b
  }

  /** `toLowerCase` on one character; only the ASCII letters are mapped. */
  function LowerChar(c: char): char {
    if 'A' <= c <= 'Z' then (c as int + 32) as char else c
  }

  predicate HasNoUpper(s: string) {
    forall i :: 0 <= i < |s| ==> !('A' <= s[i] <= 'Z')
  }

  /** `s.toLowerCase()`: same length, no upper-case letter left, and every
      character that is not an upper-case letter kept where it was. */
  function ToLower(s: string): (r: string)
    ensures |r| == |s|
  {
    seq(|s|, i requires 0 <= i < |s| => LowerChar(s[i]))
  }

  /** `toLowerCase` turns each upper-case letter into its lower-case letter,
      32 code points further on, leaves no upper-case letter, keeps every
      character that is not one where it was, and so keeps whitespace where
      it was. */
  lemma ToLowerSpec(s: string)
    ensures HasNoUpper(ToLower(s))
    ensures forall i :: 0 <= i < |s| && 'A' <= s[i] <= 'Z' ==> ToLower(s)[i] as int == s[i] as int + 32
    ensures forall i :: 0 <= i < |s| && !('A' <= s[i] <= 'Z') ==> ToLower(s)[i] == s[i]
    ensures forall i :: 0 <= i < |s| ==> (IsWhitespace(ToLower(s)[i]) <==> IsWhitespace(s[i]))
  {
  }

  /** Lower-casing a string that has no upper-case letter changes nothing. */
  lemma ToLowerOfLower(s: string)
    requires HasNoUpper(s)
    ensures ToLower(s) == s
  {
    ToLowerSpec(s);
  }

  /** `upper` is an ASCII capital and `lower` the same letter in lower case. */
  predicate CasePair(upper: char, lower: char) {
    'A' <= upper <= 'Z' && lower as int == upper as int + 32
  }

  /** `a` and `b` spell the same text, up to the case of ASCII letters. */
  predicate SameUpToCase(a: string, b: string) {
    |a| == |b|
    && forall i :: 0 <= i < |a| ==> a[i] == b[i] || CasePair(a[i], b[i]) || CasePair(b[i], a[i])
  }

  /** Strings that differ only in the case of their letters lower-case alike. */
  lemma SameUpToCaseLowersAlike(a: string, b: string)
    requires SameUpToCase(a, b)
    ensures ToLower(a) == ToLower(b)
  {
    forall i | 0 <= i < |a| ensures ToLower(a)[i] == ToLower(b)[i] {
      if CasePair(a[i], b[i]) || CasePair(b[i], a[i]) {
        assert LowerChar(a[i]) as int == LowerChar(b[i]) as int;
      }
    }
  }

  /** Lower-casing a character keeps it whitespace or not. */
  lemma LowerCharKeepsWhitespace(c: char)
    ensures IsWhitespace(LowerChar(c)) <==> IsWhitespace(c)
  {
  }

  /** Lower-casing works character by character, so it commutes with
      dropping the first or the last character. */
  lemma ToLowerDropEnds(s: string)
    requires s != []
    ensures ToLower(s)[1..] == ToLower(s[1..])
    ensures ToLower(s)[..|s| - 1] == ToLower(s[..|s| - 1])
  {
    var l, tail, init := ToLower(s), s[1..], s[..|s| - 1];
    forall i | 0 <= i < |tail| ensures l[1..][i] == ToLower(tail)[i] {
      assert tail[i] == s[i + 1];
    }
    forall i | 0 <= i < |init| ensures l[..|s| - 1][i] == ToLower(init)[i] {
      assert init[i] == s[i];
    }
  }

  /** Dropping leading whitespace and lower-casing can be done in either order. */
  lemma {:induction false} TrimStartCommutesWithLower(s: string)
    ensures ToLower(TrimStart(s)) == TrimStart(ToLower(s))
  {
    if s != [] {
      var l := ToLower(s);
      assert l[0] == LowerChar(s[0]);
      LowerCharKeepsWhitespace(s[0]);
      if IsWhitespace(s[0]) {
        var tail := s[1..];
        assert TrimStart(s) == TrimStart(tail);
        TrimStartCommutesWithLower(tail);
        ToLowerDropEnds(s);
        assert TrimStart(l) == TrimStart(l[1..]);
      } else {
        assert TrimStart(l) == l;
      }
    }
  }

  /** Dropping trailing whitespace and lower-casing can be done in either order. */
  lemma {:induction false} TrimEndCommutesWithLower(s: string)
    ensures ToLower(TrimEnd(s)) == TrimEnd(ToLower(s))
  {
    if s != [] {
      var l := ToLower(s);
      assert l[|s| - 1] == LowerChar(s[|s| - 1]);
      LowerCharKeepsWhitespace(s[|s| - 1]);
      if IsWhitespace(s[|s| - 1]) {
        var init := s[..|s| - 1];
        assert TrimEnd(s) == TrimEnd(init);
        TrimEndCommutesWithLower(init);
        ToLowerDropEnds(s);
        assert TrimEnd(l) == TrimEnd(l[..|s| - 1]);
      } else {
        assert TrimEnd(l) == l;
      }
    }
  }

  /** `trim` and `toLowerCase` can be done in either order. */
  lemma TrimCommutesWithLower(s: string)
    ensures ToLower(Trim(s)) == Trim(ToLower(s))
  {
    TrimStartCommutesWithLower(s);
    TrimEndCommutesWithLower(TrimStart(s));
  }

  /** `name.split(".").pop()`: the text after the last `.`, or the whole name
      when it holds no `.` at all. */
  function Extension(name: string): (ext: string)
    ensures |ext| <= |name| && '.' !in ext
  {
    if name == [] then []
    else if name[|name| - 1] == '.' then []
    else Extension(name[..|name| - 1]) + [name[|name| - 1]]
  }

  /** The extension is a suffix of the name without any `.`, and it is
      preceded by a `.` unless it is the whole name. */
  lemma {:induction false} ExtensionIsLastSegment(name: string)
    ensures var ext := Extension(name);
            |ext| <= |name| && ext == name[|name| - |ext|..] && '.' !in ext
            && (|ext| < |name| ==> name[|name| - |ext| - 1] == '.')
  {
    if name != [] && name[|name| - 1] != '.' {
      var init := name[..|name| - 1];
      ExtensionIsLastSegment(init);
      var e := Extension(init);
      assert Extension(name) == e + [name[|name| - 1]];
      assert name == init + [name[|name| - 1]];
    }
  }

  /** Whatever precedes the final `.`, the extension is what follows it. */
  lemma {:induction false} ExtensionAfterDot(base: string, ext: string)
    requires '.' !in ext
    ensures Extension(base + "." + ext) == ext
    decreases |ext|
  {
    var name := base + "." + ext;
    if ext == [] {
      assert name[|name| - 1] == '.';
    } else {
      var last := ext[|ext| - 1];
      assert name[|name| - 1] == last;
      assert name[..|name| - 1] == base + "." + ext[..|ext| - 1];
      ExtensionAfterDot(base, ext[..|ext| - 1]);
      assert ext == ext[..|ext| - 1] + [last];
    }
  }

  /** A name without any `.` is its own extension. */
  lemma ExtensionWithoutDot(name: string)
    requires '.' !in name
    ensures Extension(name) == name
  {
    ExtensionIsLastSegment(name);
  }
}
