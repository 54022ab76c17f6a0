/** DNS names as label sequences (section 3.1 of RFC 1034), most specific label first,
    compared without regard to ASCII case. */
module Names {
  type Name = seq<string>

  function LowerChar(c: char): char {
    if 'A' <= c <= 'Z' then (c as int + 32) as char else c
  }

  function UpperChar(c: char): char {
    if 'a' <= c <= 'z' then (c as int - 32) as char else c
  }

  function ToLower(s: string): (t: string)
    ensures |t| == |s| && forall i :: 0 <= i < |s| ==> t[i] == LowerChar(s[i])
  {
    seq(|s|, i requires 0 <= i < |s| => LowerChar(s[i]))
  }

  function ToUpper(s: string): (t: string)
    ensures |t| == |s| && forall i :: 0 <= i < |s| ==> t[i] == UpperChar(s[i])
  {
    seq(|s|, i requires 0 <= i < |s| => UpperChar(s[i]))
  }

  predicate EqualFold(s: string, t: string) {
    ToLower(s) == ToLower(t)
  }

  lemma EqualFoldIsToUpper(s: string, t: string)
    ensures EqualFold(s, t) <==> ToUpper(s) == ToUpper(t)
  {
    if EqualFold(s, t) {
      forall i | 0 <= i < |s| ensures UpperChar(s[i]) == UpperChar(t[i]) {
        assert ToLower(s)[i] == ToLower(t)[i];
      }
      assert |ToLower(s)| == |ToLower(t)|;
    }
    if ToUpper(s) == ToUpper(t) {
      forall i | 0 <= i < |s| ensures LowerChar(s[i]) == LowerChar(t[i]) {
        assert ToUpper(s)[i] == ToUpper(t)[i];
      }
      assert |ToUpper(s)| == |ToUpper(t)|;
    }
  }

  /** The lower-case form under which owners are compared. */
  function Canonical(n: Name): (c: Name)
    ensures |c| == |n| && forall i :: 0 <= i < |n| ==> c[i] == ToLower(n[i])
  {
    seq(|n|, i requires 0 <= i < |n| => ToLower(n[i]))
  }

  predicate IsSuffix(s: Name, t: Name) {
    |s| <= |t| && t[|t| - |s|..] == s
  }

  /** `child` equals `parent` or lies below it. */
  predicate IsSubDomain(parent: Name, child: Name) {
    IsSuffix(Canonical(parent), Canonical(child))
  }

  predicate Overlap(a: Name, b: Name) {
    IsSubDomain(a, b) || IsSubDomain(b, a)
  }

  lemma SuffixOfSame(a: Name, b: Name, n: Name)
    requires IsSuffix(a, n) && IsSuffix(b, n) && |a| <= |b|
    ensures IsSuffix(a, b)
  {
    assert b[|b| - |a|..] == n[|n| - |b|..][|b| - |a|..] == n[|n| - |a|..];
  }

  /** Two zones overlap exactly when some name lies in both. */
  lemma OverlapIffCommonName(a: Name, b: Name)
    ensures Overlap(a, b) <==> exists n: Name :: IsSubDomain(a, n) && IsSubDomain(b, n)
  {
    if n: Name :| IsSubDomain(a, n) && IsSubDomain(b, n) {
      if |a| <= |b| {
        SuffixOfSame(Canonical(a), Canonical(b), Canonical(n));
      } else {
        SuffixOfSame(Canonical(b), Canonical(a), Canonical(n));
      }
    }
    assert IsSubDomain(a, a) && IsSubDomain(b, b);
  }

  /** The last labels of `name` are those of `zone`, up to case. */
  ghost predicate Under(zone: Name, name: Name) {
    |zone| <= |name| && forall i :: 0 <= i < |zone| ==> ToLower(name[|name| - |zone| + i]) == ToLower(zone[i])
  }

  lemma UnderIff(zone: Name, name: Name)
    ensures IsSubDomain(zone, name) <==> Under(zone, name)
  {
    if |zone| <= |name| {
      var tail := Canonical(name)[|name| - |zone|..];
      assert forall i :: 0 <= i < |zone| ==> tail[i] == ToLower(name[|name| - |zone| + i]);
      if Under(zone, name) { assert tail == Canonical(zone); }
    }
  }

  /** The name written with dots. */
  ghost function Text(n: Name): string {
    if n == [] then "" else if |n| == 1 then n[0] else n[0] + "." + Text(n[1..])
  }

  lemma {:induction false} TextLengthIs(n: Name)
    ensures TextLength(n) == |Text(n)|
  {
    if |n| > 1 { TextLengthIs(n[1..]); }
  }

  /** The length of the name written with dots. */
  function TextLength(n: Name): nat {
    if n == [] then 0 else if |n| == 1 then |n[0]| else |n[0]| + 1 + TextLength(n[1..])
  }

  /** Some text is longer than every one of a finite set. */
  lemma {:induction false} LongerThanAll(texts: set<string>) returns (t: string)
    ensures forall s :: s in texts ==> |s| < |t|
    decreases texts
  {
    t := "x";
    if s :| s in texts {
      var u := LongerThanAll(texts - {s});
      t := u + s + "x";
    }
  }
}
