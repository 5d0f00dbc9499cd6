/**
 The string operations the ledger relies on: trimming of Unicode white space, ASCII case
 mapping, first-non-empty choice and the lexicographic order of `sort.Strings`.

 Every normalising function carries the fact that makes it idempotent as a postcondition:
 its result is a fixed point, and fixed points are left alone.
 */
module Text {

  // The code points for which Go's unicode.IsSpace is true.
  predicate IsSpace(c: char) {
    c == ' ' || '\U{0009}' <= c <= '\U{000D}' || c == '\U{0085}' || c == '\U{00A0}' || c == '\U{1680}'
    || '\U{2000}' <= c <= '\U{200A}' || c == '\U{2028}' || c == '\U{2029}' || c == '\U{202F}'
    || c == '\U{205F}' || c == '\U{3000}'
  }

  predicate Trimmed(s: string) {
    s == [] || (!IsSpace(s[0]) && !IsSpace(s[|s| - 1]))
  }

  /** strings.TrimSpace */
  function Trim(s: string): (r: string)
    ensures Trimmed(r)
    ensures Trimmed(s) ==> r == s
  {
    if Trimmed(s) then s else if IsSpace(s[0]) then Trim(s[1..]) else Trim(s[..|s| - 1])
  }

  function UpperChar(c: char): (r: char)
    ensures IsSpace(r) == IsSpace(c)
  {
    if 'a' <= c <= 'z' then c - 'a' + 'A' else c
  }

  function LowerChar(c: char): (r: char)
    ensures IsSpace(r) == IsSpace(c)
  {
    if 'A' <= c <= 'Z' then c - 'A' + 'a' else c
  }

  predicate IsUpper(s: string) {
    forall i | 0 <= i < |s| :: UpperChar(s[i]) == s[i]
  }

  predicate IsLower(s: string) {
    forall i | 0 <= i < |s| :: LowerChar(s[i]) == s[i]
  }

  function Upper(s: string): (r: string)
    ensures |r| == |s| && IsUpper(r)
    ensures IsUpper(s) ==> r == s
    ensures Trimmed(s) ==> Trimmed(r)
  {
    seq(|s|, i requires 0 <= i < |s| => UpperChar(s[i]))
  }

  function Lower(s: string): (r: string)
    ensures |r| == |s| && IsLower(r)
    ensures IsLower(s) ==> r == s
    ensures Trimmed(s) ==> Trimmed(r)
  {
    seq(|s|, i requires 0 <= i < |s| => LowerChar(s[i]))
  }

  /** strings.ToUpper(strings.TrimSpace(s)), the form every currency code is kept in. */
  function Currency(s: string): (r: string)
    ensures Trimmed(r) && IsUpper(r)
    ensures Trimmed(s) && IsUpper(s) ==> r == s
  {
    Upper(Trim(s))
  }

  /** The first of the two that is not blank, trimmed; blank if both are. */
  function FirstNonEmpty(a: string, b: string): (r: string)
    ensures Trimmed(r)
    ensures r == "" <==> Trim(a) == "" && Trim(b) == ""
  {
    if Trim(a) != "" then Trim(a) else Trim(b)
  }

  // A trimmed, non-empty text keeps its ends when it is put between two texts that are
  // themselves trimmed and non-empty.
  lemma JoinTrimmed(front: string, back: string)
    requires Trimmed(front) && Trimmed(back) && front != "" && back != ""
    ensures Trimmed(front + back) && front + back != ""
  {
  }

  // ---------------------------------------------------------------- what these functions do, character by character

  /** The code points of white space, written out. */
  lemma WhiteSpace(c: char)
    ensures IsSpace(c) <==> (c as int in {0x9, 0xA, 0xB, 0xC, 0xD, 0x20, 0x85, 0xA0, 0x1680, 0x2028, 0x2029, 0x202F, 0x205F, 0x3000}
                             || 0x2000 <= c as int <= 0x200A)
  {
  }

  predicate AllSpaces(s: string) { forall i | 0 <= i < |s| :: IsSpace(s[i]) }

  /** Trimming takes white space off the ends and nothing else. */
  lemma {:induction false} TrimTakesSpaces(s: string) returns (front: string, back: string)
    ensures s == front + Trim(s) + back && AllSpaces(front) && AllSpaces(back)
    ensures Trim(s) == "" || (!IsSpace(Trim(s)[0]) && !IsSpace(Trim(s)[|Trim(s)| - 1]))
  {
    hide IsSpace, IsUpper, IsLower;
    if Trimmed(s) {
      front, back := "", "";
    } else if IsSpace(s[0]) {
      front, back := TrimTakesSpaces(s[1..]);
      front := [s[0]] + front;
      assert s == [s[0]] + s[1..];
    } else {
      front, back := TrimTakesSpaces(s[..|s| - 1]);
      back := back + [s[|s| - 1]];
      assert s == s[..|s| - 1] + [s[|s| - 1]];
    }
  }

  /** The same ASCII letter in either case, or the very same character. */
  predicate SameLetter(a: char, b: char) {
    || a == b
    || ('a' <= a <= 'z' && b as int == a as int - 32)
    || ('a' <= b <= 'z' && a as int == b as int - 32)
  }

  /** Two texts that read the same, letter by letter, but for ASCII case. */
  predicate SameText(s: string, t: string) {
    |s| == |t| && forall i | 0 <= i < |s| :: SameLetter(s[i], t[i])
  }

  lemma UpperReads(s: string)
    ensures SameText(Upper(s), s) && forall i | 0 <= i < |s| :: !('a' <= Upper(s)[i] <= 'z')
  {
  }

  lemma LowerReads(s: string)
    ensures SameText(Lower(s), s) && forall i | 0 <= i < |s| :: !('A' <= Lower(s)[i] <= 'Z')
  {
  }

  lemma CharExactly(a: char, b: char)
    ensures UpperChar(a) == UpperChar(b) <==> SameLetter(a, b)
    ensures LowerChar(a) == LowerChar(b) <==> SameLetter(a, b)
  {
  }

  /** Mapping to one case identifies exactly the texts that differ in case only. */
  lemma UpperExactly(s: string, t: string)
    ensures Upper(s) == Upper(t) <==> SameText(s, t)
  {
    hide UpperChar, LowerChar, SameLetter, Trimmed, IsUpper;
    forall a, b ensures UpperChar(a) == UpperChar(b) <==> SameLetter(a, b) { CharExactly(a, b); }
    assert forall i | 0 <= i < |s| :: Upper(s)[i] == UpperChar(s[i]);
    assert forall i | 0 <= i < |t| :: Upper(t)[i] == UpperChar(t[i]);
  }

  lemma LowerExactly(s: string, t: string)
    ensures Lower(s) == Lower(t) <==> SameText(s, t)
  {
    hide UpperChar, LowerChar, SameLetter, Trimmed, IsLower;
    forall a, b ensures LowerChar(a) == LowerChar(b) <==> SameLetter(a, b) { CharExactly(a, b); }
    assert forall i | 0 <= i < |s| :: Lower(s)[i] == LowerChar(s[i]);
    assert forall i | 0 <= i < |t| :: Lower(t)[i] == LowerChar(t[i]);
  }

  lemma CurrencyBlank(s: string)
    ensures Currency(s) == "" <==> Trim(s) == ""
    ensures Currency(Currency(s)) == Currency(s)
  {
    hide Trim, Trimmed;
  }

  /** Two currency codes are one if and only if they agree, trimmed, letter by letter up to case; no code has a small letter. */
  lemma CurrencyExactly(s: string, t: string)
    ensures Currency(s) == Currency(t) <==> SameText(Trim(s), Trim(t))
    ensures forall i | 0 <= i < |Currency(s)| :: !('a' <= Currency(s)[i] <= 'z')
  {
    hide Trim;
    UpperExactly(Trim(s), Trim(t));
    UpperReads(Trim(s));
  }

  /** The byte-wise order of Go strings (which is code point order for UTF-8). */
  predicate Less(a: string, b: string) {
    b != [] && (a == [] || a[0] < b[0] || (a[0] == b[0] && Less(a[1..], b[1..])))
  }

  lemma {:induction false} LessTotal(a: string, b: string)
    ensures Less(a, b) || Less(b, a) || a == b
  {
    if a != [] && b != [] && a[0] == b[0] {
      LessTotal(a[1..], b[1..]);
      assert a == [a[0]] + a[1..] && b == [b[0]] + b[1..];
    }
  }

  lemma {:induction false} LessTransitive(a: string, b: string, c: string)
    requires Less(a, b) && Less(b, c)
    ensures Less(a, c)
  {
    if a != [] && a[0] == b[0] && b[0] == c[0] {
      LessTransitive(a[1..], b[1..], c[1..]);
    }
  }

  lemma {:induction false} LessIrreflexive(a: string)
    ensures !Less(a, a)
  {
    if a != [] { LessIrreflexive(a[1..]); }
  }

  /** The order written out: at the first place where the texts part, one has ended or has the smaller character. */
  lemma {:induction false} LessExactly(a: string, b: string)
    ensures Less(a, b) <==>
              exists k | 0 <= k <= |a| && k < |b| :: a[..k] == b[..k] && (k == |a| || a[k] < b[k])
  {
    if b != [] && (a == [] || a[0] < b[0]) {
      assert a[..0] == b[..0];
    }
    if a != [] && b != [] {
      LessExactly(a[1..], b[1..]);
      if a[0] == b[0] && Less(a[1..], b[1..]) {
        var k :| 0 <= k <= |a[1..]| && k < |b[1..]| && a[1..][..k] == b[1..][..k] && (k == |a[1..]| || a[1..][k] < b[1..][k]);
        assert a[..k + 1] == [a[0]] + a[1..][..k] && b[..k + 1] == [b[0]] + b[1..][..k];
        assert k + 1 == |a| || a[k + 1] < b[k + 1];
      }
      if k :| 0 < k <= |a| && k < |b| && a[..k] == b[..k] && (k == |a| || a[k] < b[k]) {
        assert a[0] == a[..k][0] == b[..k][0] == b[0];
        assert a[1..][..k - 1] == a[..k][1..] && b[1..][..k - 1] == b[..k][1..];
        assert k == |a| || a[1..][k - 1] < b[1..][k - 1];
      }
    }
  }
}
