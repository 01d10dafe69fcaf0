/** The string operations the application relies on (`trim`, `toLowerCase`,
    `includes`, `substring`, the regular-expression replace in the status
    class builder and number-to-string conversion), written out over
    `seq<char>` for the ASCII range. */
module Text {

  /** White space and line terminators as `String.prototype.trim` and the
      regular-expression class `\s` see them, restricted to ASCII. */
  predicate IsSpace(c: char) {
    c == ' ' || c == '\t' || c == '\n' || c == '\r' || c == '\U{000B}' || c == '\U{000C}'
  }

  predicate NoSpace(s: string) {
    forall i :: 0 <= i < |s| ==> !IsSpace(s[i])
  }

  predicate AllSpace(s: string) {
    forall i :: 0 <= i < |s| ==> IsSpace(s[i])
  }

  predicate IsUpper(c: char) {
    'A' <= c <= 'Z'
  }

  /** A capital becomes the small letter at the same place in the alphabet;
      every other character is left alone. */
  function LowerChar(c: char): (d: char)
    ensures !IsUpper(d)
    ensures !IsUpper(c) ==> d == c
    ensures IsUpper(c) ==> 'a' <= d <= 'z' && d as int - 'a' as int == c as int - 'A' as int
  {
    if IsUpper(c) then (c as int + 32) as char else c
  }

  /** `toLowerCase`: every character mapped through LowerChar, nothing else. */
  function ToLower(s: string): (r: string)
    ensures |r| == |s|
    ensures forall i :: 0 <= i < |s| ==> r[i] == LowerChar(s[i])
  {
    if s == [] then [] else [LowerChar(s[0])] + ToLower(s[1..])
  }

  /** Lower-casing does not create white space. */
  lemma NoSpaceToLower(s: string)
    requires NoSpace(s)
    ensures NoSpace(ToLower(s))
  {
    forall i | 0 <= i < |s| ensures !IsSpace(ToLower(s)[i]) {
      assert ToLower(s)[i] == LowerChar(s[i]);
    }
  }

  /** Lower-casing works character by character, so it distributes over
      concatenation. */
  lemma {:induction false} ToLowerAppend(x: string, y: string)
    ensures ToLower(x + y) == ToLower(x) + ToLower(y)
  {
    if x == [] {
      assert x + y == y;
    } else {
      assert (x + y)[0] == x[0] && (x + y)[1..] == x[1..] + y;
      ToLowerAppend(x[1..], y);
    }
  }

  /** A maximal run of white space inside a name that is lower-cased and
      then has its white space replaced becomes one dash between the pieces'
      own results. */
  lemma CollapseLowerSplit(a: string, w: string, b: string)
    requires w != [] && AllSpace(w)
    requires a == [] || !IsSpace(a[|a| - 1])
    requires b == [] || !IsSpace(b[0])
    ensures CollapseSpaces(ToLower(a + w + b))
         == CollapseSpaces(ToLower(a)) + "-" + CollapseSpaces(ToLower(b))
  {
    var la, lw, lb := ToLower(a), ToLower(w), ToLower(b);
    ToLowerAppend(a + w, b);
    ToLowerAppend(a, w);
    assert ToLower(a + w + b) == la + lw + lb;
    assert lw != [] && AllSpace(lw) by {
      forall i | 0 <= i < |lw| ensures IsSpace(lw[i]) {
        assert lw[i] == LowerChar(w[i]);
      }
    }
    assert la == [] || !IsSpace(la[|la| - 1]) by {
      if la != [] {
        assert la[|la| - 1] == LowerChar(a[|a| - 1]);
      }
    }
    assert lb == [] || !IsSpace(lb[0]) by {
      if lb != [] {
        assert lb[0] == LowerChar(b[0]);
      }
    }
    CollapseSpacesSplit(la, lw, lb);
  }

  /** Regrouping a concatenation of four pieces. */
  lemma AppendRegroup(p: string, x: string, d: string, y: string)
    ensures p + (x + d + y) == p + x + d + y
  {
  }

  /** Drops the leading white space. */
  function TrimStart(s: string): (r: string)
    ensures |r| <= |s|
  {
    if s != [] && IsSpace(s[0]) then TrimStart(s[1..]) else s
  }

  /** What TrimStart removes is all white space, and what remains is a
      suffix that does not start with white space. */
  lemma {:induction false} TrimStartSpec(s: string)
    ensures var r := TrimStart(s);
      && r == s[|s| - |r|..] && AllSpace(s[..|s| - |r|])
      && (r != [] ==> !IsSpace(r[0]))
  {
    if s != [] && IsSpace(s[0]) {
      TrimStartSpec(s[1..]);
      var r := TrimStart(s);
      assert s[1..][..|s| - 1 - |r|] == s[1..|s| - |r|];
    }
  }

  /** Drops the trailing white space. */
  function TrimEnd(s: string): (r: string)
    ensures |r| <= |s|
  {
    if s != [] && IsSpace(s[|s| - 1]) then TrimEnd(s[..|s| - 1]) else s
  }

  /** What TrimEnd removes is all white space, and what remains is a prefix
      that does not end with white space. */
  lemma {:induction false} TrimEndSpec(s: string)
    ensures var r := TrimEnd(s);
      && r == s[..|r|] && AllSpace(s[|r|..])
      && (r != [] ==> !IsSpace(r[|r| - 1]))
  {
    if s != [] && IsSpace(s[|s| - 1]) {
      TrimEndSpec(s[..|s| - 1]);
      var r := TrimEnd(s);
      assert s[|r|..] == s[..|s| - 1][|r|..] + [s[|s| - 1]];
    }
  }

  /** `trim`. */
  function Trim(s: string): (r: string)
    ensures |r| <= |s|
  {
    TrimEnd(TrimStart(s))
  }

  /** The trimmed string is a piece of the original that neither starts nor
      ends with white space, and everything cut off either side is white
      space. */
  lemma TrimSpec(s: string)
    ensures var t, r := TrimStart(s), Trim(s);
      && r == s[|s| - |t|..|s| - |t| + |r|]
      && AllSpace(s[..|s| - |t|]) && AllSpace(s[|s| - |t| + |r|..])
      && (r != [] ==> !IsSpace(r[0]) && !IsSpace(r[|r| - 1]))
  {
    var t := TrimStart(s);
    TrimStartSpec(s);
    TrimEndSpec(t);
    var r := Trim(s);
    var k := |s| - |t|;
    assert t[|r|..] == s[k + |r|..];
    if r != [] {
      assert r[0] == t[0];
    }
  }

  /** A string trims to the empty string exactly when it is all white space;
      this is the test behind every "required field" check. */
  lemma TrimEmptyIff(s: string)
    ensures Trim(s) == [] <==> AllSpace(s)
  {
    var t := TrimStart(s);
    var k := |s| - |t|;
    TrimStartSpec(s);
    TrimEndSpec(t);
    if Trim(s) == [] {
      assert AllSpace(t[0..]) && t[0..] == t;
      assert t == [] && s[..k] == s;
    }
  }

  predicate StartsWith(s: string, p: string) {
    |p| <= |s| && s[..|p|] == p
  }

  /** Strings that differ in their first character do not start alike. */
  lemma StartsWithHead(s: string, p: string)
    requires s != [] && p != [] && s[0] != p[0]
    ensures !StartsWith(s, p)
  {
    if |p| <= |s| {
      assert s[..|p|][0] == s[0];
    }
  }

  /** `p` occurs in `s` starting at index `i`. */
  ghost predicate OccursAt(s: string, p: string, i: int) {
    0 <= i && i + |p| <= |s| && s[i..i + |p|] == p
  }

  /** `s.includes(p)`, as a left-to-right scan. */
  predicate Includes(s: string, p: string)
    decreases |s|
  {
    StartsWith(s, p) || (s != [] && Includes(s[1..], p))
  }

  /** The scan finds `p` exactly when `p` occurs somewhere in `s`. */
  lemma {:induction false} IncludesIff(s: string, p: string)
    ensures Includes(s, p) <==> exists i :: OccursAt(s, p, i)
    decreases |s|
  {
    if Includes(s, p) {
      if StartsWith(s, p) {
        assert OccursAt(s, p, 0);
      } else {
        IncludesIff(s[1..], p);
        var i :| OccursAt(s[1..], p, i);
        assert s[1..][i..i + |p|] == s[i + 1..i + 1 + |p|];
        assert OccursAt(s, p, i + 1);
      }
    }
    if exists i :: OccursAt(s, p, i) {
      var i :| OccursAt(s, p, i);
      if i == 0 {
        assert s[..|p|] == s[0..|p|];
      } else {
        assert s[1..][i - 1..i - 1 + |p|] == s[i..i + |p|];
        assert OccursAt(s[1..], p, i - 1);
        IncludesIff(s[1..], p);
      }
    }
  }

  /** Every string includes the empty string. */
  lemma IncludesEmpty(s: string)
    ensures Includes(s, "")
  {
  }

  /** `s.replace(/\s+/g, '-')`: every maximal run of white space becomes one
      dash. */
  function CollapseSpaces(s: string): (r: string)
    ensures NoSpace(r)
    ensures |r| <= |s|
    decreases |s|
  {
    if s == [] then []
    else if IsSpace(s[0]) then
      assert TrimStart(s) == TrimStart(s[1..]);
      "-" + CollapseSpaces(TrimStart(s))
    else [s[0]] + CollapseSpaces(s[1..])
  }

  /** Leading white space in front of a string that does not start with
      white space is exactly what TrimStart removes. */
  lemma {:induction false} TrimStartOfRun(w: string, b: string)
    requires AllSpace(w)
    requires b == [] || !IsSpace(b[0])
    ensures TrimStart(w + b) == b
  {
    if w != [] {
      assert (w + b)[1..] == w[1..] + b;
      TrimStartOfRun(w[1..], b);
    } else {
      assert w + b == b;
    }
  }

  /** Trimming the front of a string that is not all white space does not
      reach past it. */
  lemma {:induction false} TrimStartAppend(x: string, y: string)
    requires !AllSpace(x)
    ensures TrimStart(x + y) == TrimStart(x) + y
  {
    if IsSpace(x[0]) {
      assert (x + y)[1..] == x[1..] + y;
      assert !AllSpace(x[1..]) by {
        var i :| 0 <= i < |x| && !IsSpace(x[i]);
        assert x[1..][i - 1] == x[i];
      }
      TrimStartAppend(x[1..], y);
    }
  }

  /** A non-empty run of white space on its own becomes one dash. */
  lemma CollapseSpacesOfRun(w: string)
    requires w != [] && AllSpace(w)
    ensures CollapseSpaces(w) == "-"
  {
    TrimStartOfRun(w, []);
    assert w + [] == w;
  }

  /** A string that does not end with white space keeps its last character
      through TrimStart. */
  lemma TrimStartKeepsLast(a: string)
    requires a != [] && !IsSpace(a[|a| - 1])
    ensures TrimStart(a) != [] && TrimStart(a)[|TrimStart(a)| - 1] == a[|a| - 1]
  {
    TrimStartSpec(a);
    assert a[..|a|][|a| - 1] == a[|a| - 1];
  }

  /** A string led by a maximal run of white space becomes a dash followed by
      the replacement of the rest. */
  lemma CollapseSpacesLeadingRun(w: string, b: string)
    requires w != [] && AllSpace(w)
    requires b == [] || !IsSpace(b[0])
    ensures CollapseSpaces(w + b) == "-" + CollapseSpaces(b)
  {
    TrimStartOfRun(w, b);
  }

  /** Replacing in a string that starts with white space but is not all white
      space goes through its trimmed front, which is shorter. */
  lemma CollapseSpacesAfterTrim(a: string, c: string)
    requires a != [] && IsSpace(a[0]) && !AllSpace(a)
    ensures CollapseSpaces(a + c) == "-" + CollapseSpaces(TrimStart(a) + c)
    ensures CollapseSpaces(a) == "-" + CollapseSpaces(TrimStart(a))
    ensures |TrimStart(a)| < |a|
  {
    TrimStartAppend(a, c);
    assert TrimStart(a) == TrimStart(a[1..]);
  }

  /** The step of the split for a piece before the run that starts with a
      non-space character. */
  lemma CollapseSpacesSplitCons(a: string, c: string, d: string)
    requires a != [] && !IsSpace(a[0])
    requires CollapseSpaces(a[1..] + c) == CollapseSpaces(a[1..]) + d
    ensures CollapseSpaces(a + c) == CollapseSpaces(a) + d
  {
    assert (a + c)[1..] == a[1..] + c;
  }

  /** The step of the split for a piece before the run that starts with white
      space. */
  lemma CollapseSpacesSplitTrim(a: string, c: string, d: string)
    requires a != [] && IsSpace(a[0]) && !AllSpace(a)
    requires CollapseSpaces(TrimStart(a) + c) == CollapseSpaces(TrimStart(a)) + d
    ensures CollapseSpaces(a + c) == CollapseSpaces(a) + d
  {
    CollapseSpacesAfterTrim(a, c);
  }

  /** Replacement distributes over a cut between a non-space character and
      white space. */
  lemma {:induction false} CollapseSpacesAppend(a: string, c: string)
    requires a == [] || !IsSpace(a[|a| - 1])
    requires c != [] && IsSpace(c[0])
    ensures CollapseSpaces(a + c) == CollapseSpaces(a) + CollapseSpaces(c)
    decreases |a|
  {
    if a == [] {
      assert a + c == c;
    } else if !IsSpace(a[0]) {
      assert a[1..] == [] || a[1..][|a[1..]| - 1] == a[|a| - 1];
      CollapseSpacesAppend(a[1..], c);
      CollapseSpacesSplitCons(a, c, CollapseSpaces(c));
    } else {
      assert !AllSpace(a) by {
        assert !IsSpace(a[|a| - 1]);
      }
      CollapseSpacesAfterTrim(a, c);
      TrimStartKeepsLast(a);
      CollapseSpacesAppend(TrimStart(a), c);
      CollapseSpacesSplitTrim(a, c, CollapseSpaces(c));
    }
  }

  /** A run of white space between two pieces becomes one dash between the
      pieces' own replacements, provided the run is maximal: the piece before
      does not end, and the piece after does not start, with white space. */
  lemma CollapseSpacesSplit(a: string, w: string, b: string)
    requires w != [] && AllSpace(w)
    requires a == [] || !IsSpace(a[|a| - 1])
    requires b == [] || !IsSpace(b[0])
    ensures CollapseSpaces(a + w + b) == CollapseSpaces(a) + "-" + CollapseSpaces(b)
  {
    assert (w + b)[0] == w[0];
    CollapseSpacesAppend(a, w + b);
    CollapseSpacesLeadingRun(w, b);
    assert a + w + b == a + (w + b);
  }

  /** A string with no white space is left as it is. */
  lemma {:induction false} CollapseSpacesIdentity(s: string)
    requires NoSpace(s)
    ensures CollapseSpaces(s) == s
  {
    if s != [] {
      assert !IsSpace(s[0]);
      assert NoSpace(s[1..]) by {
        forall i | 0 <= i < |s| - 1 ensures !IsSpace(s[1..][i]) {
          assert s[1..][i] == s[i + 1];
        }
      }
      CollapseSpacesIdentity(s[1..]);
      assert s == [s[0]] + s[1..];
    }
  }

  /** Replacing the runs twice is the same as replacing them once. */
  lemma CollapseSpacesIdempotent(s: string)
    ensures CollapseSpaces(CollapseSpaces(s)) == CollapseSpaces(s)
  {
    CollapseSpacesIdentity(CollapseSpaces(s));
  }

  /** `s.length > limit ? s.substring(0, limit) + "..." : s`. */
  function Truncate(s: string, limit: nat): (r: string)
    ensures |r| <= limit + 3
    ensures |s| <= limit ==> r == s
    ensures |s| > limit ==> |r| == limit + 3 && StartsWith(s, r[..limit]) && r[limit..] == "..."
  {
    if |s| > limit then s[..limit] + "..." else s
  }

  /** `length` of a JavaScript string: characters outside the Basic
      Multilingual Plane take two UTF-16 code units, all others one. */
  function Utf16Length(s: string): (n: nat)
    ensures |s| <= n <= 2 * |s|
    ensures |s| == 1 ==> n == if s[0] as int >= 0x1_0000 then 2 else 1
  {
    if s == [] then 0 else (if s[0] as int >= 0x1_0000 then 2 else 1) + Utf16Length(s[1..])
  }

  /** Code units add up over concatenation. */
  lemma {:induction false} Utf16LengthAppend(a: string, b: string)
    ensures Utf16Length(a + b) == Utf16Length(a) + Utf16Length(b)
  {
    if a == [] {
      assert a + b == b;
    } else {
      assert (a + b)[0] == a[0] && (a + b)[1..] == a[1..] + b;
      Utf16LengthAppend(a[1..], b);
    }
  }

  /** The length in code units equals the number of characters exactly when
      every character lies in the Basic Multilingual Plane. */
  lemma {:induction false} Utf16LengthIsCount(s: string)
    ensures Utf16Length(s) == |s| <==> forall i :: 0 <= i < |s| ==> s[i] as int < 0x1_0000
  {
    if s != [] {
      Utf16LengthIsCount(s[1..]);
      assert forall i :: 1 <= i < |s| ==> s[i] == s[1..][i - 1];
    }
  }

  predicate IsDigit(c: char) {
    '0' <= c <= '9'
  }

  predicate AllDigits(s: string) {
    forall i :: 0 <= i < |s| ==> IsDigit(s[i])
  }

  function DigitChar(d: nat): (c: char)
    requires d < 10
    ensures IsDigit(c)
  {
    ('0' as int + d) as char
  }

  /** The decimal rendering of a number in a template string: digits only,
      never empty, and no leading zero except for zero itself. */
  function NatToDecimal(n: nat): (r: string)
    ensures r != [] && AllDigits(r)
    ensures r[0] == '0' ==> n == 0 && r == "0"
    decreases n
  {
    if n < 10 then [DigitChar(n)] else NatToDecimal(n / 10) + [DigitChar(n % 10)]
  }

  /** The length of the run of digits a string starts with. */
  function LeadingDigits(s: string): (n: nat)
    ensures n <= |s|
  {
    if s != [] && IsDigit(s[0]) then 1 + LeadingDigits(s[1..]) else 0
  }

  /** A run of digits followed by something that is not a digit is exactly
      the leading run, so it can be cut off again. */
  lemma {:induction false} LeadingDigitsOf(d: string, t: string)
    requires AllDigits(d)
    requires t == [] || !IsDigit(t[0])
    ensures LeadingDigits(d + t) == |d|
  {
    if d == [] {
      assert d + t == t;
    } else {
      assert (d + t)[0] == d[0] && (d + t)[1..] == d[1..] + t;
      assert AllDigits(d[1..]) by {
        forall i | 0 <= i < |d| - 1 ensures IsDigit(d[1..][i]) {
          assert d[1..][i] == d[i + 1];
        }
      }
      LeadingDigitsOf(d[1..], t);
    }
  }

  /** The number a string of digits denotes. */
  function DecimalValue(s: string): nat
    requires AllDigits(s)
  {
    if s == [] then 0 else 10 * DecimalValue(s[..|s| - 1]) + (s[|s| - 1] as int - '0' as int)
  }

  /** The decimal rendering loses nothing: reading it back gives the number. */
  lemma {:induction false} DecimalRoundTrip(n: nat)
    ensures DecimalValue(NatToDecimal(n)) == n
    decreases n
  {
    if n >= 10 {
      DecimalRoundTrip(n / 10);
      var s := NatToDecimal(n);
      assert s[..|s| - 1] == NatToDecimal(n / 10);
    }
  }
}
