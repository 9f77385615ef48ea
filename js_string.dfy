/**
 * JavaScript's String.prototype.trim, on strings as sequences of characters.
 * Both components strip their drafts with it before deciding whether to send.
 */
module JsString {

  import opened Wrappers

  /** The code points ECMAScript counts as WhiteSpace or LineTerminator: exactly the
      characters `trim` removes from either end. They are tab, line feed, vertical tab,
      form feed and carriage return (9-13), space (32), no-break space (0xA0), the other
      space separators of Unicode category Zs (0x1680, 0x2000-0x200A, 0x202F, 0x205F,
      0x3000), line and paragraph separator (0x2028, 0x2029) and the byte order mark (0xFEFF). */
  predicate IsWhitespace(c: char) {
    var n := c as int;
    || 9 <= n <= 13 || n == 32 || n == 0xA0 || n == 0x1680
    || 0x2000 <= n <= 0x200A || n == 0x2028 || n == 0x2029 || n == 0x202F
    || n == 0x205F || n == 0x3000 || n == 0xFEFF
  }

  ghost predicate AllWhitespace(s: string) {
    forall i | 0 <= i < |s| :: IsWhitespace(s[i])
  }

  /** Neither end of `s` is whitespace. */
  predicate IsTrimmed(s: string) {
    s == [] || (!IsWhitespace(s[0]) && !IsWhitespace(s[|s| - 1]))
  }

  /** `s` without its leading whitespace: what is left does not start with whitespace. */
  function TrimStart(s: string): (r: string)
    ensures |r| <= |s|
    ensures r == [] || !IsWhitespace(r[0])
  {
    if s != [] && IsWhitespace(s[0]) then TrimStart(s[1..]) else s
  }

  /** `s` without its trailing whitespace: a prefix of `s` that does not end with whitespace. */
  function TrimEnd(s: string): (r: string)
    ensures |r| <= |s| && r == s[..|r|]
    ensures r == [] || !IsWhitespace(r[|r| - 1])
  {
    if s != [] && IsWhitespace(s[|s| - 1]) then TrimEnd(s[..|s| - 1]) else s
  }

  /** `s.trim()`: `s` without its leading and then its trailing whitespace; neither end
      of the result is whitespace. */
  function Trim(s: string): (r: string)
    ensures IsTrimmed(r) && |r| <= |s|
  {
    TrimEnd(TrimStart(s))
  }

  /** `TrimStart` keeps a suffix of `s`, and what it cuts is whitespace. */
  lemma {:induction false} TrimStartCut(s: string)
    ensures TrimStart(s) == s[|s| - |TrimStart(s)|..]
    ensures forall i | 0 <= i < |s| - |TrimStart(s)| :: IsWhitespace(s[i])
  {
    if s != [] && IsWhitespace(s[0]) {
      TrimStartCut(s[1..]);
      forall i | 1 <= i < |s| - |TrimStart(s)| ensures IsWhitespace(s[i]) {
        assert s[i] == s[1..][i - 1];
      }
    }
  }

  /** What `TrimEnd` cuts is whitespace. */
  lemma {:induction false} TrimEndCut(s: string)
    ensures forall i | |TrimEnd(s)| <= i < |s| :: IsWhitespace(s[i])
  {
    if s != [] && IsWhitespace(s[|s| - 1]) {
      TrimEndCut(s[..|s| - 1]);
      forall i | |TrimEnd(s)| <= i < |s| - 1 ensures IsWhitespace(s[i]) {
        assert s[i] == s[..|s| - 1][i];
      }
    }
  }

  /** How many whitespace characters `trim` removes from the front of `s`. */
  function LeadingWhitespace(s: string): nat
  {
    |s| - |TrimStart(s)|
  }

  /** What `Trim` keeps is the piece of `s` that starts after its leading whitespace,
      and only whitespace follows that piece in `s`. */
  lemma TrimSlice(s: string)
    ensures LeadingWhitespace(s) + |Trim(s)| <= |s|
    ensures Trim(s) == s[LeadingWhitespace(s)..LeadingWhitespace(s) + |Trim(s)|]
    ensures forall i | 0 <= i < LeadingWhitespace(s) :: IsWhitespace(s[i])
    ensures forall i | LeadingWhitespace(s) + |Trim(s)| <= i < |s| :: IsWhitespace(s[i])
  {
    var t := TrimStart(s);
    var k := |s| - |t|;
    var r := TrimEnd(t);
    assert t == s[k..] by {
      TrimStartCut(s);
    }
    assert forall i | 0 <= i < k :: IsWhitespace(s[i]) by {
      TrimStartCut(s);
    }
    assert r == s[k..k + |r|];
    forall i | k + |r| <= i < |s| ensures IsWhitespace(s[i]) {
      TrimEndCut(t);
      assert s[i] == t[i - k];
    }
  }

  /** The draft a component would send: its trimmed text, when that is not empty.
      `if (draft.trim())` tests the trimmed string for truthiness, i.e. non-emptiness. */
  function Submittable(draft: string): (r: Option<string>)
    ensures r.None? <==> AllWhitespace(draft)
    ensures r.Some? ==> r.value == Trim(draft) && r.value != [] && IsTrimmed(r.value)
  {
    TrimEmptyIff(draft);
    var t := Trim(draft);
    if t == [] then None else Some(t)
  }

  /** Trimming yields the empty string exactly when every character is whitespace. */
  lemma TrimEmptyIff(s: string)
    ensures Trim(s) == [] <==> AllWhitespace(s)
  {
    TrimSlice(s);
    var r, k := Trim(s), LeadingWhitespace(s);
    if r != [] {
      assert s[k] == r[0];
    }
  }

  /** `trim` is determined by its characterisation: whatever whitespace is peeled
      off the two ends, a trimmed middle piece is the result of `Trim`. */
  lemma TrimUnique(s: string, a: string, m: string, b: string)
    requires s == a + m + b
    requires AllWhitespace(a) && AllWhitespace(b) && IsTrimmed(m)
    ensures Trim(s) == m
  {
    var e := |a| + |m|;
    assert forall i | 0 <= i < |a| :: IsWhitespace(s[i]) by {
      forall i | 0 <= i < |a| ensures s[i] == a[i] { }
    }
    assert forall i | e <= i < |s| :: IsWhitespace(s[i]) by {
      forall i | e <= i < |s| ensures s[i] == b[i - e] { }
    }
    assert s[|a|..e] == m;
    TrimOfPadded(s, |a|, e);
  }

  /** The index form of `TrimUnique`: whitespace before `lo` and from `hi` on,
      and a trimmed piece between them. */
  lemma TrimOfPadded(s: string, lo: nat, hi: nat)
    requires lo <= hi <= |s|
    requires forall i | 0 <= i < lo :: IsWhitespace(s[i])
    requires forall i | hi <= i < |s| :: IsWhitespace(s[i])
    requires IsTrimmed(s[lo..hi])
    ensures Trim(s) == s[lo..hi]
  {
    if lo == hi {
      assert AllWhitespace(s);
      TrimEmptyIff(s);
    } else {
      assert !IsWhitespace(s[lo]) && !IsWhitespace(s[hi - 1]) by {
        assert s[lo..hi][0] == s[lo] && s[lo..hi][hi - lo - 1] == s[hi - 1];
      }
      TrimStartAt(s, lo);
      TrimEndAfter(s, lo, hi);
    }
  }

  /** Leading whitespace up to a non-whitespace character at `lo` is exactly what
      `TrimStart` removes. */
  lemma {:induction false} TrimStartAt(s: string, lo: nat)
    requires lo < |s| && !IsWhitespace(s[lo])
    requires forall i | 0 <= i < lo :: IsWhitespace(s[i])
    ensures TrimStart(s) == s[lo..]
  {
    if lo > 0 {
      assert IsWhitespace(s[0]);
      TrimStartAt(s[1..], lo - 1);
      assert s[1..][lo - 1..] == s[lo..];
    }
  }

  /** `TrimEndAt` on the suffix of `s` that starts at `lo`. */
  lemma TrimEndAfter(s: string, lo: nat, hi: nat)
    requires lo < hi <= |s| && !IsWhitespace(s[hi - 1])
    requires forall i | hi <= i < |s| :: IsWhitespace(s[i])
    ensures TrimEnd(s[lo..]) == s[lo..hi]
  {
    var t := s[lo..];
    forall i | hi - lo <= i < |t| ensures IsWhitespace(t[i]) {
      assert t[i] == s[lo + i];
    }
    TrimEndAt(t, hi - lo);
    assert t[..hi - lo] == s[lo..hi];
  }

  /** Trailing whitespace from `hi` on, after a non-whitespace character at `hi - 1`,
      is exactly what `TrimEnd` removes. */
  lemma {:induction false} TrimEndAt(s: string, hi: nat)
    requires 0 < hi <= |s| && !IsWhitespace(s[hi - 1])
    requires forall i | hi <= i < |s| :: IsWhitespace(s[i])
    ensures TrimEnd(s) == s[..hi]
  {
    if hi < |s| {
      assert IsWhitespace(s[|s| - 1]);
      TrimEndAt(s[..|s| - 1], hi);
      assert s[..|s| - 1][..hi] == s[..hi];
    }
  }

  /** Trimming twice is trimming once. */
  lemma TrimIdempotent(s: string)
    ensures Trim(Trim(s)) == Trim(s)
  {
    var t := Trim(s);
    assert t == [] + t + [];
    TrimUnique(t, [], t, []);
  }

  /** The draft that is passed on is already trimmed: offering it again passes on
      the same value. */
  lemma SubmittedDraftIsFixed(draft: string)
    ensures Submittable(draft).Some? ==> Submittable(Submittable(draft).value) == Submittable(draft)
  {
    if Submittable(draft).Some? {
      TrimIdempotent(draft);
    }
  }
}
