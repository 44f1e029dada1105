/** Python's `str.strip()`, which the classification run applies to the
    model's answer. */
module PyStrip {

  /** Python's `str.isspace()` for one character: the ASCII whitespace and
      separator controls plus the Unicode space separators. */
  predicate IsSpace(c: char) {
    var n := c as int;
    (9 <= n <= 13) || (28 <= n <= 32) || n == 0x85 || n == 0xA0 || n == 0x1680
    || (0x2000 <= n <= 0x200A) || n == 0x2028 || n == 0x2029 || n == 0x202F
    || n == 0x205F || n == 0x3000
  }

  predicate AllSpace(s: string) {
    forall k :: 0 <= k < |s| ==> IsSpace(s[k])
  }

  /** A string that `strip()` leaves alone: no whitespace at either end. */
  predicate IsStripped(s: string) {
    s == [] || (!IsSpace(s[0]) && !IsSpace(s[|s| - 1]))
  }

  /** Length of the longest all-whitespace prefix. */
  function LeadingSpaces(s: string): (n: nat)
    ensures n <= |s|
    ensures forall k :: 0 <= k < n ==> IsSpace(s[k])
    ensures n < |s| ==> !IsSpace(s[n])
  {
    if s == [] || !IsSpace(s[0]) then 0 else 1 + LeadingSpaces(s[1..])
  }

  /** Length of the longest all-whitespace suffix. */
  function TrailingSpaces(s: string): (n: nat)
    ensures n <= |s|
    ensures forall k :: |s| - n <= k < |s| ==> IsSpace(s[k])
    ensures n < |s| ==> !IsSpace(s[|s| - 1 - n])
  {
    if s == [] || !IsSpace(s[|s| - 1]) then 0 else 1 + TrailingSpaces(s[..|s| - 1])
  }

  /** `s.strip()`: the characters between the longest whitespace prefix and
      the longest whitespace suffix, unchanged and in order. */
  function Strip(s: string): (r: string)
    ensures IsStripped(r)
    ensures LeadingSpaces(s) + |r| <= |s|
    ensures forall k :: 0 <= k < |r| ==> r[k] == s[LeadingSpaces(s) + k]
    ensures forall k :: LeadingSpaces(s) + |r| <= k < |s| ==> IsSpace(s[k])
  {
    var i := LeadingSpaces(s);
    var j := TrailingSpaces(s[i..]);
    s[i..|s| - j]
  }

  /** Whitespace followed by a non-whitespace character (or by nothing):
      the whitespace is exactly the longest whitespace prefix. */
  lemma {:induction false} LeadingSpacesOfPadded(prefix: string, t: string)
    requires AllSpace(prefix)
    requires t == [] || !IsSpace(t[0])
    ensures LeadingSpaces(prefix + t) == |prefix|
  {
    if prefix == [] {
      assert prefix + t == t;
    } else {
      var s := prefix + t;
      assert s[0] == prefix[0];
      assert s[1..] == prefix[1..] + t;
      LeadingSpacesOfPadded(prefix[1..], t);
    }
  }

  /** A non-whitespace character (or nothing) followed by whitespace: the
      whitespace is exactly the longest whitespace suffix. */
  lemma {:induction false} TrailingSpacesOfPadded(t: string, suffix: string)
    requires AllSpace(suffix)
    requires t == [] || !IsSpace(t[|t| - 1])
    ensures TrailingSpaces(t + suffix) == |suffix|
  {
    if suffix == [] {
      assert t + suffix == t;
    } else {
      var s := t + suffix;
      var init := suffix[..|suffix| - 1];
      assert s[|s| - 1] == suffix[|suffix| - 1];
      assert s[..|s| - 1] == t + init;
      TrailingSpacesOfPadded(t, init);
    }
  }

  /** A string made of whitespace only strips to the empty string. */
  lemma StripAllSpace(s: string)
    requires AllSpace(s)
    ensures Strip(s) == []
  {
    assert s + [] == s;
    LeadingSpacesOfPadded(s, []);
  }

  /** Whatever surrounds a core with no whitespace at its ends, `strip()`
      removes exactly the whitespace and returns the core. */
  lemma StripExact(prefix: string, core: string, suffix: string)
    requires AllSpace(prefix) && AllSpace(suffix) && IsStripped(core)
    ensures Strip(prefix + core + suffix) == core
  {
    var s := prefix + core + suffix;
    if core == [] {
      assert AllSpace(s) by {
        assert forall k :: 0 <= k < |prefix| ==> s[k] == prefix[k];
        assert forall k :: |prefix| <= k < |s| ==> s[k] == suffix[k - |prefix|];
      }
      StripAllSpace(s);
    } else {
      var rest := core + suffix;
      assert LeadingSpaces(s) == |prefix| by {
        assert s == prefix + rest;
        LeadingSpacesOfPadded(prefix, rest);
      }
      assert s[|prefix|..] == rest;
      TrailingSpacesOfPadded(core, suffix);
      assert Strip(s) == s[|prefix|..|s| - |suffix|];
      assert s[|prefix|..|s| - |suffix|] == core;
    }
  }

  lemma ThreeSlices(s: string, i: nat, j: nat)
    requires i <= j <= |s|
    ensures s == s[..i] + s[i..j] + s[j..]
  {
  }

  /** What `strip()` returns is what it found between whitespace: the input
      is that result with whitespace before and after it. */
  lemma StripRemovesOnlySpace(s: string)
    ensures exists prefix, suffix :: AllSpace(prefix) && AllSpace(suffix) && s == prefix + Strip(s) + suffix
  {
    var i := LeadingSpaces(s);
    var r := Strip(s);
    var j := i + |r|;
    var prefix, suffix := s[..i], s[j..];
    assert AllSpace(prefix) by {
      assert forall k :: 0 <= k < |prefix| ==> prefix[k] == s[k];
    }
    assert AllSpace(suffix) by {
      assert forall k :: 0 <= k < |suffix| ==> suffix[k] == s[j + k];
    }
    assert r == s[i..j];
    ThreeSlices(s, i, j);
  }

  /** Stripping twice is stripping once. */
  lemma StripIdempotent(s: string)
    ensures Strip(Strip(s)) == Strip(s)
  {
    var r := Strip(s);
    assert LeadingSpaces(r) == 0 by {
      assert [] + r == r;
      LeadingSpacesOfPadded([], r);
    }
    assert TrailingSpaces(r) == 0 by {
      assert r + [] == r;
      TrailingSpacesOfPadded(r, []);
    }
    assert r[0..|r|] == r;
  }
}

/** Python's `str.replace('\n', "")`, which the classification run applies
    to each metric description. */
module PyReplace {

  /** `s.replace('\n', "")`: every newline removed, every other character
      kept, in its original order. */
  function RemoveNewlines(s: string): (r: string)
    ensures '\n' !in r
    ensures |r| <= |s|
  {
    if s == [] then []
    else (if s[0] == '\n' then [] else [s[0]]) + RemoveNewlines(s[1..])
  }

  /** Every character other than a newline occurs as often as before. */
  lemma {:induction false} RemoveNewlinesKeepsOthers(s: string, c: char)
    requires c != '\n'
    ensures multiset(RemoveNewlines(s))[c] == multiset(s)[c]
  {
    if s != [] {
      assert s == [s[0]] + s[1..];
      RemoveNewlinesKeepsOthers(s[1..], c);
    }
  }

  /** Removing newlines works piece by piece, so the order of the kept
      characters is the order they had. */
  lemma {:induction false} RemoveNewlinesAppend(a: string, b: string)
    ensures RemoveNewlines(a + b) == RemoveNewlines(a) + RemoveNewlines(b)
  {
    if a == [] {
      assert a + b == b;
    } else {
      var kept := if a[0] == '\n' then [] else [a[0]];
      assert (a + b)[0] == a[0];
      assert (a + b)[1..] == a[1..] + b;
      RemoveNewlinesAppend(a[1..], b);
      calc {
        RemoveNewlines(a + b);
        kept + RemoveNewlines(a[1..] + b);
        kept + (RemoveNewlines(a[1..]) + RemoveNewlines(b));
        (kept + RemoveNewlines(a[1..])) + RemoveNewlines(b);
        RemoveNewlines(a) + RemoveNewlines(b);
      }
    }
  }

  /** A string without newlines is left as it is. */
  lemma {:induction false} RemoveNewlinesNoop(s: string)
    requires '\n' !in s
    ensures RemoveNewlines(s) == s
  {
    if s != [] {
      assert s[0] in s;
      assert forall c :: c in s[1..] ==> c in s;
      RemoveNewlinesNoop(s[1..]);
      assert s == [s[0]] + s[1..];
    }
  }

  /** A leading newline is dropped and nothing else changes. */
  lemma RemoveLeadingNewline(s: string)
    ensures RemoveNewlines(['\n'] + s) == RemoveNewlines(s)
  {
    assert (['\n'] + s)[1..] == s;
  }

  /** Lines joined by newlines become the lines run together:
      "Line1\nLine2" becomes "Line1Line2". */
  lemma JoinedLines(line1: string, line2: string)
    requires '\n' !in line1 && '\n' !in line2
    ensures RemoveNewlines(line1 + "\n" + line2) == line1 + line2
  {
    calc {
      RemoveNewlines(line1 + "\n" + line2);
      { assert line1 + "\n" + line2 == line1 + (['\n'] + line2); }
      RemoveNewlines(line1 + (['\n'] + line2));
      { RemoveNewlinesAppend(line1, ['\n'] + line2); }
      RemoveNewlines(line1) + RemoveNewlines(['\n'] + line2);
      { RemoveLeadingNewline(line2); }
      RemoveNewlines(line1) + RemoveNewlines(line2);
      { RemoveNewlinesNoop(line1); RemoveNewlinesNoop(line2); }
      line1 + line2;
    }
  }

  /** Removing newlines twice is removing them once. */
  lemma RemoveNewlinesIdempotent(s: string)
    ensures RemoveNewlines(RemoveNewlines(s)) == RemoveNewlines(s)
  {
    RemoveNewlinesNoop(RemoveNewlines(s));
  }
}
