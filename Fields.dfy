/** How the serializer's text fields clean a submitted value: surrounding
    whitespace is removed before the blank, length and uniqueness checks
    run, and the cleaned value is the one stored. Whitespace is what
    Python's `str.isspace` accepts. */
module Fields {

  predicate IsWhitespace(c: char) {
    var n := c as int;
    || (9 <= n <= 13) || (28 <= n <= 32) || n == 0x85 || n == 0xA0 || n == 0x1680
    || (0x2000 <= n <= 0x200A) || n == 0x2028 || n == 0x2029 || n == 0x202F
    || n == 0x205F || n == 0x3000
  }

  predicate AllWhitespace(s: string) {
    forall k :: 0 <= k < |s| ==> IsWhitespace(s[k])
  }

  /** The text holds no U+0000: every text field refuses a null character
      in what remains after trimming. */
  predicate NullFree(s: string) {
    '\0' !in s
  }

  /** Neither end of the text is whitespace. */
  predicate Trimmed(s: string) {
    s == [] || (!IsWhitespace(s[0]) && !IsWhitespace(s[|s| - 1]))
  }

  /** Drops leading whitespace. */
  function TrimStart(s: string): (r: string)
    ensures |r| <= |s|
    ensures r == [] || !IsWhitespace(r[0])
  {
    if s != [] && IsWhitespace(s[0]) then TrimStart(s[1..]) else s
  }

  /** Drops trailing whitespace; what is left starts where the text did. */
  function TrimEnd(s: string): (r: string)
    ensures |r| <= |s|
    ensures r == [] || !IsWhitespace(r[|r| - 1])
    ensures r != [] ==> r[0] == s[0]
  {
    if s != [] && IsWhitespace(s[|s| - 1]) then TrimEnd(s[..|s| - 1]) else s
  }

  /** The stored value of a text field: the submitted text without its
      surrounding whitespace. */
  function Trim(s: string): (r: string)
    ensures |r| <= |s|
    ensures Trimmed(r)
  {
    TrimEnd(TrimStart(s))
  }

  lemma {:induction false} TrimStartBlank(s: string)
    ensures TrimStart(s) == [] <==> AllWhitespace(s)
    decreases |s|
  {
    if s != [] && IsWhitespace(s[0]) {
      TrimStartBlank(s[1..]);
      assert AllWhitespace(s) <==> AllWhitespace(s[1..]) by {
        if AllWhitespace(s[1..]) {
          forall k | 0 <= k < |s| ensures IsWhitespace(s[k]) {
            if k > 0 { assert s[k] == s[1..][k - 1]; }
          }
        }
      }
    }
  }

  lemma {:induction false} TrimEndBlank(s: string)
    ensures TrimEnd(s) == [] <==> AllWhitespace(s)
    decreases |s|
  {
    if s != [] && IsWhitespace(s[|s| - 1]) {
      var front := s[..|s| - 1];
      TrimEndBlank(front);
      assert AllWhitespace(s) <==> AllWhitespace(front) by {
        if AllWhitespace(front) {
          forall k | 0 <= k < |s| ensures IsWhitespace(s[k]) {
            if k < |s| - 1 { assert s[k] == front[k]; }
          }
        }
      }
    }
  }

  /** A text is blank, and trims to nothing, exactly when it is all whitespace. */
  lemma TrimBlank(s: string)
    ensures Trim(s) == [] <==> AllWhitespace(s)
  {
    var front := TrimStart(s);
    TrimStartBlank(s);
    TrimEndBlank(front);
  }

  lemma {:induction false} TrimStartPadding(pad: string, rest: string)
    requires AllWhitespace(pad)
    requires rest == [] || !IsWhitespace(rest[0])
    ensures TrimStart(pad + rest) == rest
    decreases |pad|
  {
    if pad != [] {
      assert (pad + rest)[1..] == pad[1..] + rest;
      TrimStartPadding(pad[1..], rest);
    } else {
      assert pad + rest == rest;
    }
  }

  lemma {:induction false} TrimEndPadding(rest: string, pad: string)
    requires AllWhitespace(pad)
    requires rest == [] || !IsWhitespace(rest[|rest| - 1])
    ensures TrimEnd(rest + pad) == rest
    decreases |pad|
  {
    if pad != [] {
      assert (rest + pad)[..|rest + pad| - 1] == rest + pad[..|pad| - 1];
      TrimEndPadding(rest, pad[..|pad| - 1]);
    } else {
      assert rest + pad == rest;
    }
  }

  /** Whitespace around a trimmed text is exactly what Trim removes. */
  lemma TrimPadding(before: string, core: string, after: string)
    requires AllWhitespace(before) && AllWhitespace(after) && Trimmed(core)
    ensures Trim(before + core + after) == core
  {
    if core == [] {
      assert before + core + after == before + after;
      assert AllWhitespace(before + after) by {
        forall k | 0 <= k < |before + after| ensures IsWhitespace((before + after)[k]) {
          if k < |before| { assert (before + after)[k] == before[k]; }
          else { assert (before + after)[k] == after[k - |before|]; }
        }
      }
      TrimBlank(before + after);
    } else {
      assert before + core + after == before + (core + after);
      TrimStartPadding(before, core + after);
      TrimEndPadding(core, after);
    }
  }

  lemma {:induction false} TrimStartKeeps(s: string, c: char)
    requires c in s && !IsWhitespace(c)
    ensures c in TrimStart(s)
    decreases |s|
  {
    if s != [] && IsWhitespace(s[0]) {
      var k :| 0 <= k < |s| && s[k] == c;
      assert s[1..][k - 1] == c;
      TrimStartKeeps(s[1..], c);
    }
  }

  lemma {:induction false} TrimEndKeeps(s: string, c: char)
    requires c in s && !IsWhitespace(c)
    ensures c in TrimEnd(s)
    decreases |s|
  {
    if s != [] && IsWhitespace(s[|s| - 1]) {
      var k :| 0 <= k < |s| && s[k] == c;
      assert s[..|s| - 1][k] == c;
      TrimEndKeeps(s[..|s| - 1], c);
    }
  }

  /** Trimming removes only whitespace: every other character survives it.
      In particular a null character is still there to be refused. */
  lemma TrimKeepsNonWhitespace(s: string, c: char)
    requires c in s && !IsWhitespace(c)
    ensures c in Trim(s)
  {
    TrimStartKeeps(s, c);
    TrimEndKeeps(TrimStart(s), c);
  }

  /** A trimmed text is stored as it is; in particular Trim is idempotent. */
  lemma TrimKeepsTrimmed(s: string)
    requires Trimmed(s)
    ensures Trim(s) == s
  {
    TrimPadding([], s, []);
    assert [] + s + [] == s;
  }

  lemma TrimIdempotent(s: string)
    ensures Trim(Trim(s)) == Trim(s)
  {
    TrimKeepsTrimmed(Trim(s));
  }
}
