/**
 * The JavaScript string built-ins the core relies on, over ASCII:
 * `toLowerCase`, `trim`, the `\s` character class, `replace(/\s+/g, " ")`
 * and `includes`.
 */
module JsText {

  /** The characters of `\s` (and of `trim`) below 128. */
  predicate IsSpace(c: char) {
    c == ' ' || c == '\t' || c == '\n' || c == '\r' || c == '\U{B}' || c == '\U{C}'
  }

  predicate IsUpper(c: char) {
    'A' <= c <= 'Z'
  }

  predicate IsDigit(c: char) {
    '0' <= c <= '9'
  }

  function LowerChar(c: char): char {
    if IsUpper(c) then (c as int + 32) as char else c
  }

  /** `String.prototype.toLowerCase`. */
  function ToLower(s: string): string {
    seq(|s|, i requires 0 <= i < |s| => LowerChar(s[i]))
  }

  /** A string no upper-case letter occurs in. */
  predicate IsLowerCase(s: string) {
    forall i :: 0 <= i < |s| ==> !IsUpper(s[i])
  }

  /** The number of whitespace characters at the front of `s`. */
  function LeadingSpaces(s: string): (n: nat)
    ensures n <= |s|
  {
    if s != [] && IsSpace(s[0]) then 1 + LeadingSpaces(s[1..]) else 0
  }

  /** The number of whitespace characters at the end of `s`. */
  function TrailingSpaces(s: string): (n: nat)
    ensures n <= |s|
  {
    if s != [] && IsSpace(s[|s| - 1]) then 1 + TrailingSpaces(s[..|s| - 1]) else 0
  }

  /** Leading whitespace removed. */
  function TrimStart(s: string): string {
    s[LeadingSpaces(s)..]
  }

  /** Trailing whitespace removed. */
  function TrimEnd(s: string): string {
    s[..|s| - TrailingSpaces(s)]
  }

  /** `String.prototype.trim`. */
  function Trim(s: string): string {
    TrimEnd(TrimStart(s))
  }

  /** LeadingSpaces counts exactly the whitespace run at the front. */
  lemma {:induction false} LeadingSpacesSpec(s: string)
    ensures forall i :: 0 <= i < LeadingSpaces(s) ==> IsSpace(s[i])
    ensures LeadingSpaces(s) < |s| ==> !IsSpace(s[LeadingSpaces(s)])
    decreases |s|
  {
    if s != [] && IsSpace(s[0]) {
      LeadingSpacesSpec(s[1..]);
    }
  }

  /** TrailingSpaces counts exactly the whitespace run at the end. */
  lemma {:induction false} TrailingSpacesSpec(s: string)
    ensures forall i :: |s| - TrailingSpaces(s) <= i < |s| ==> IsSpace(s[i])
    ensures TrailingSpaces(s) < |s| ==> !IsSpace(s[|s| - TrailingSpaces(s) - 1])
    decreases |s|
  {
    if s != [] && IsSpace(s[|s| - 1]) {
      TrailingSpacesSpec(s[..|s| - 1]);
    }
  }

  /**
   * `trim` leaves a middle slice of `s` that neither starts nor ends with
   * whitespace, cuts only whitespace on either side of it, and leaves
   * nothing exactly when `s` is blank.
   */
  lemma TrimSpec(s: string)
    ensures var r := Trim(s);
      r == [] || (!IsSpace(r[0]) && !IsSpace(r[|r| - 1]))
    ensures Trim(s) == [] <==> forall i :: 0 <= i < |s| ==> IsSpace(s[i])
    ensures Trim(s) == s[LeadingSpaces(s)..LeadingSpaces(s) + |Trim(s)|]
    ensures forall i :: 0 <= i < LeadingSpaces(s) ==> IsSpace(s[i])
    ensures forall i :: LeadingSpaces(s) + |Trim(s)| <= i < |s| ==> IsSpace(s[i])
  {
    var k := LeadingSpaces(s);
    var t := s[k..];
    LeadingSpacesSpec(s);
    TrailingSpacesSpec(t);
  }

  /** Trimming removes exactly the whitespace around a middle part that neither starts nor ends with it. */
  lemma TrimAround(pre: string, mid: string, post: string)
    requires forall i :: 0 <= i < |pre| ==> IsSpace(pre[i])
    requires forall i :: 0 <= i < |post| ==> IsSpace(post[i])
    requires mid != [] && !IsSpace(mid[0]) && !IsSpace(mid[|mid| - 1])
    ensures Trim(pre + mid + post) == mid
  {
    var s := pre + mid + post;
    TrimSpec(s);
    var k := LeadingSpaces(s);
    assert s[|pre|] == mid[0];
    assert s[|pre| + |mid| - 1] == mid[|mid| - 1];
    assert k == |pre|;
    assert k + |Trim(s)| == |pre| + |mid|;
    assert s[|pre|..|pre| + |mid|] == mid;
  }

  /** Trimming keeps a string lower case. */
  lemma TrimLowerCase(s: string)
    requires IsLowerCase(s)
    ensures IsLowerCase(Trim(s))
  {
    TrimSpec(s);
  }

  /** `replace(/\s+/g, " ")`: every maximal run of whitespace becomes one space. */
  function CollapseSpaces(s: string): string
    decreases |s|
  {
    if s == [] then []
    else if IsSpace(s[0]) then [' '] + CollapseSpaces(TrimStart(s[1..]))
    else [s[0]] + CollapseSpaces(s[1..])
  }

  /**
   * After the collapse every whitespace character is a plain space, no two
   * are adjacent, the text is empty only if it was, and it starts and ends
   * with whitespace only if the input did.
   */
  lemma CollapseSpacesSpec(s: string)
    ensures var r := CollapseSpaces(s);
      forall i :: 0 <= i < |r| && IsSpace(r[i]) ==> r[i] == ' '
    ensures var r := CollapseSpaces(s);
      forall i :: 0 <= i < |r| - 1 ==> !(IsSpace(r[i]) && IsSpace(r[i + 1]))
    ensures CollapseSpaces(s) == [] <==> s == []
    ensures var r := CollapseSpaces(s);
      r != [] ==> (IsSpace(r[0]) <==> IsSpace(s[0]))
    ensures var r := CollapseSpaces(s);
      r != [] ==> (IsSpace(r[|r| - 1]) <==> IsSpace(s[|s| - 1]))
  {
    CollapseSpacesPlain(s);
    CollapseSpacesSeparated(s);
    CollapseSpacesEnds(s);
  }

  /** Every whitespace character is a plain space. */
  predicate PlainSpaces(r: string)
  {
    forall i :: 0 <= i < |r| && IsSpace(r[i]) ==> r[i] == ' '
  }

  /** No two whitespace characters are adjacent. */
  predicate NoAdjacentSpaces(r: string)
  {
    forall i :: 0 <= i < |r| - 1 ==> !(IsSpace(r[i]) && IsSpace(r[i + 1]))
  }

  /** The first half of CollapseSpacesSpec: only plain spaces remain. */
  lemma {:induction false} CollapseSpacesPlain(s: string)
    ensures PlainSpaces(CollapseSpaces(s))
    decreases |s|
  {
    if s != [] {
      var r := CollapseSpaces(s);
      var rest;
      if IsSpace(s[0]) {
        var t := TrimStart(s[1..]);
        LeadingSpacesSpec(s[1..]);
        CollapseSpacesPlain(t);
        rest := CollapseSpaces(t);
        assert r == [' '] + rest;
      } else {
        CollapseSpacesPlain(s[1..]);
        rest := CollapseSpaces(s[1..]);
        assert r == [s[0]] + rest;
      }
      assert forall i :: 1 <= i < |r| ==> r[i] == rest[i - 1];
    }
  }

  /** The second half of CollapseSpacesSpec: no two spaces are adjacent. */
  lemma {:induction false} CollapseSpacesSeparated(s: string)
    ensures NoAdjacentSpaces(CollapseSpaces(s))
    decreases |s|
  {
    if s != [] {
      var r := CollapseSpaces(s);
      var rest;
      if IsSpace(s[0]) {
        var t := TrimStart(s[1..]);
        LeadingSpacesSpec(s[1..]);
        CollapseSpacesSeparated(t);
        CollapseSpacesEnds(t);
        rest := CollapseSpaces(t);
        assert r == [' '] + rest;
        assert rest == [] || !IsSpace(rest[0]);
      } else {
        CollapseSpacesSeparated(s[1..]);
        rest := CollapseSpaces(s[1..]);
        assert r == [s[0]] + rest;
      }
      assert forall i :: 1 <= i < |r| ==> r[i] == rest[i - 1];
    }
  }

  /** The ends half of CollapseSpacesSpec: emptiness and the first and last characters. */
  lemma {:induction false} CollapseSpacesEnds(s: string)
    ensures CollapseSpaces(s) == [] <==> s == []
    ensures var r := CollapseSpaces(s);
      r != [] ==> (IsSpace(r[0]) <==> IsSpace(s[0]))
    ensures var r := CollapseSpaces(s);
      r != [] ==> (IsSpace(r[|r| - 1]) <==> IsSpace(s[|s| - 1]))
    decreases |s|
  {
    if s != [] {
      var r := CollapseSpaces(s);
      if IsSpace(s[0]) {
        var t := TrimStart(s[1..]);
        LeadingSpacesSpec(s[1..]);
        CollapseSpacesEnds(t);
        var rest := CollapseSpaces(t);
        assert r == [' '] + rest;
        if rest == [] {
          assert forall i :: 0 <= i < |s[1..]| ==> IsSpace(s[1..][i]);
          assert IsSpace(s[|s| - 1]) by {
            if |s| > 1 {
              assert s[|s| - 1] == s[1..][|s| - 2];
            }
          }
        } else {
          assert t[|t| - 1] == s[|s| - 1];
        }
      } else {
        CollapseSpacesEnds(s[1..]);
        var rest := CollapseSpaces(s[1..]);
        assert r == [s[0]] + rest;
        if rest != [] {
          assert s[1..][|s[1..]| - 1] == s[|s| - 1];
        }
      }
    }
  }

  /** The whitespace run at the front of a concatenation. */
  lemma {:induction false} LeadingSpacesAppend(x: string, y: string)
    ensures LeadingSpaces(x) < |x| ==> LeadingSpaces(x + y) == LeadingSpaces(x)
    ensures LeadingSpaces(x) == |x| ==> LeadingSpaces(x + y) == |x| + LeadingSpaces(y)
    decreases |x|
  {
    if x == [] {
      assert x + y == y;
    } else if IsSpace(x[0]) {
      assert (x + y)[1..] == x[1..] + y;
      LeadingSpacesAppend(x[1..], y);
    }
  }

  /** A non-empty run of whitespace collapses to a single space. */
  lemma CollapseSpacesRun(w: string)
    requires w != [] && forall i :: 0 <= i < |w| ==> IsSpace(w[i])
    ensures CollapseSpaces(w) == " "
  {
    LeadingSpacesSpec(w[1..]);
    assert TrimStart(w[1..]) == [];
  }

  /** One step of the collapse: a character, then the collapse of what follows. */
  lemma CollapseSpacesCons(c: char, x: string)
    ensures CollapseSpaces([c] + x)
         == if IsSpace(c) then [' '] + CollapseSpaces(TrimStart(x)) else [c] + CollapseSpaces(x)
  {
    assert ([c] + x)[0] == c;
    assert ([c] + x)[1..] == x;
  }

  /**
   * The collapse works run by run: cutting a text anywhere but inside a
   * whitespace run, the collapse of the whole is the collapse of the parts.
   * With CollapseSpacesRun and CollapseOfCollapsed this fixes the result on
   * every text: the non-whitespace characters are kept as they are and in
   * order, and each maximal whitespace run becomes one space.
   */
  lemma {:induction false} CollapseSpacesAppend(a: string, b: string)
    requires a == [] || b == [] || !IsSpace(a[|a| - 1]) || !IsSpace(b[0])
    ensures CollapseSpaces(a + b) == CollapseSpaces(a) + CollapseSpaces(b)
    decreases |a|, 1
  {
    if a == [] {
      assert a + b == b;
    } else if b == [] {
      assert a + b == a;
    } else {
      var t := a[1..];
      assert a == [a[0]] + t;
      assert t != [] ==> t[|t| - 1] == a[|a| - 1];
      CollapseSpacesConsAppend(a[0], t, b);
    }
  }

  /** CollapseSpacesAppend for a first part that starts with `c`. */
  lemma {:induction false} CollapseSpacesConsAppend(c: char, t: string, b: string)
    requires b != []
    requires !IsSpace(if t == [] then c else t[|t| - 1]) || !IsSpace(b[0])
    ensures CollapseSpaces([c] + t + b) == CollapseSpaces([c] + t) + CollapseSpaces(b)
    decreases |t| + 1, 0
  {
    assert [c] + t + b == [c] + (t + b);
    var head: string := if IsSpace(c) then [' '] else [c];
    CollapseSpacesCons(c, t);
    CollapseSpacesCons(c, t + b);
    var rest, tail;
    if !IsSpace(c) {
      CollapseSpacesAppend(t, b);
      rest, tail := CollapseSpaces(t), CollapseSpaces(b);
      assert CollapseSpaces([c] + t + b) == head + (rest + tail);
    } else {
      CollapseSpacesAfterRun(t, b);
      rest, tail := CollapseSpaces(TrimStart(t)), CollapseSpaces(b);
      assert CollapseSpaces([c] + t + b) == head + (rest + tail);
    }
    assert CollapseSpaces([c] + t) == head + rest;
    ConcatAssoc(head, rest, tail);
  }

  lemma ConcatAssoc(x: string, y: string, z: string)
    ensures x + (y + z) == (x + y) + z
  {
  }

  /** The space case of CollapseSpacesAppend: what follows a leading whitespace character. */
  lemma {:induction false} CollapseSpacesAfterRun(t: string, b: string)
    requires b != []
    requires (t == [] || IsSpace(t[|t| - 1])) ==> !IsSpace(b[0])
    ensures CollapseSpaces(TrimStart(t + b)) == CollapseSpaces(TrimStart(t)) + CollapseSpaces(b)
    decreases |t|, 2
  {
    LeadingSpacesAppend(t, b);
    LeadingSpacesSpec(t);
    var k := LeadingSpaces(t);
    if k < |t| {
      assert (t + b)[k..] == t[k..] + b;
      var u := TrimStart(t);
      assert u[|u| - 1] == t[|t| - 1];
      CollapseSpacesAppend(u, b);
    } else {
      assert t == [] || IsSpace(t[|t| - 1]);
      assert LeadingSpaces(b) == 0;
      assert (t + b)[|t|..] == b;
      assert TrimStart(t) == [];
    }
  }

  /** Two words with a whitespace run between them collapse to the words and one space. */
  lemma CollapseWords(w1: string, gap: string, w2: string)
    requires w1 != [] && forall i :: 0 <= i < |w1| ==> !IsSpace(w1[i])
    requires gap != [] && forall i :: 0 <= i < |gap| ==> IsSpace(gap[i])
    requires forall i :: 0 <= i < |w2| ==> !IsSpace(w2[i])
    ensures CollapseSpaces(w1 + gap + w2) == w1 + " " + w2
  {
    ConcatAssoc(w1, gap, w2);
    CollapseSpacesAppend(w1, gap + w2);
    CollapseSpacesAppend(gap, w2);
    CollapseSpacesRun(gap);
    CollapseOfCollapsed(w1);
    CollapseOfCollapsed(w2);
  }

  /** The collapse keeps a string lower case. */
  lemma {:induction false} CollapseLowerCase(s: string)
    requires IsLowerCase(s)
    ensures IsLowerCase(CollapseSpaces(s))
    decreases |s|
  {
    if s != [] {
      if IsSpace(s[0]) {
        var t := TrimStart(s[1..]);
        forall i | 0 <= i < |t|
          ensures !IsUpper(t[i])
        {
          assert t[i] == s[1 + LeadingSpaces(s[1..]) + i];
        }
        CollapseLowerCase(t);
      } else {
        CollapseLowerCase(s[1..]);
      }
    }
  }

  lemma ToLowerOfLowerCase(s: string)
    requires IsLowerCase(s)
    ensures ToLower(s) == s
  {
  }

  lemma TrimOfTrimmed(s: string)
    requires s == [] || (!IsSpace(s[0]) && !IsSpace(s[|s| - 1]))
    ensures Trim(s) == s
  {
  }

  /** A string whose only whitespace is single spaces is left alone by the collapse. */
  lemma {:induction false} CollapseOfCollapsed(s: string)
    requires forall i :: 0 <= i < |s| && IsSpace(s[i]) ==> s[i] == ' '
    requires forall i :: 0 <= i < |s| - 1 ==> !(IsSpace(s[i]) && IsSpace(s[i + 1]))
    ensures CollapseSpaces(s) == s
    decreases |s|
  {
    if s != [] {
      CollapseOfCollapsed(s[1..]);
      if IsSpace(s[0]) {
        assert TrimStart(s[1..]) == s[1..];
      }
    }
  }

  /**
   * `s.length`: JavaScript counts UTF-16 code units, so a character beyond
   * U+FFFF (a surrogate pair) counts twice.
   */
  function Utf16Length(s: string): (n: nat)
    ensures |s| <= n <= 2 * |s|
  {
    if s == [] then 0
    else Utf16Length(s[..|s| - 1]) + if s[|s| - 1] as int > 0xFFFF then 2 else 1
  }

  /** Every character lies in the Basic Multilingual Plane (one UTF-16 code unit each). */
  predicate InBasicPlane(s: string) {
    forall i :: 0 <= i < |s| ==> s[i] as int <= 0xFFFF
  }

  /**
   * A text of Basic Multilingual Plane characters (ASCII among them) is as
   * long as it has characters; a text made only of characters beyond it is
   * twice as long.
   */
  lemma {:induction false} Utf16LengthSpec(s: string)
    ensures InBasicPlane(s) ==> Utf16Length(s) == |s|
    ensures (forall i :: 0 <= i < |s| ==> s[i] as int > 0xFFFF) ==> Utf16Length(s) == 2 * |s|
    decreases |s|
  {
    if s != [] {
      var init := s[..|s| - 1];
      Utf16LengthSpec(init);
      assert forall i :: 0 <= i < |init| ==> init[i] == s[i];
    }
  }

  /** `s.startsWith(p)`. */
  predicate StartsWith(s: string, p: string) {
    |p| <= |s| && s[..|p|] == p
  }

  /** A concatenation starts with its first part. */
  lemma StartsWithConcat(p: string, rest: string)
    requires p != []
    ensures StartsWith(p + rest, p)
    ensures (p + rest)[0] == p[0]
  {
    assert (p + rest)[..|p|] == p;
  }

  /** A string that starts with a non-empty `p` starts with `p`'s first character. */
  lemma StartsWithHead(s: string, p: string)
    requires p != []
    ensures StartsWith(s, p) ==> s != [] && s[0] == p[0]
  {
  }

  /** `s.includes(t)`: `t` occurs in `s` at some position. */
  predicate Contains(s: string, t: string)
    decreases |s|
  {
    StartsWith(s, t) || (s != [] && Contains(s[1..], t))
  }

  /** Decimal digits of a natural number, as `${n}` prints it. */
  function NatToDecimal(n: nat): (r: string)
    ensures r != [] && forall i :: 0 <= i < |r| ==> IsDigit(r[i])
  {
    if n < 10 then [('0' as int + n) as char]
    else NatToDecimal(n / 10) + [('0' as int + n % 10) as char]
  }

  /** An integer as a template literal prints it. */
  function IntToDecimal(i: int): string {
    if i < 0 then "-" + NatToDecimal(-i) else NatToDecimal(i)
  }
}
