/** Joined texts; keys built from a name, a number, a separator and the rest, and when such keys agree. */
module Texts {
  import Decimal

  function Joined(parts: seq<string>, separator: string): string {
    if parts == [] then ""
    else if |parts| == 1 then parts[0]
    else parts[0] + separator + Joined(parts[1..], separator)
  }

  predicate StandsAt(s: string, part: string, at: nat) {
    at + |part| <= |s| && s[at..at + |part|] == part
  }

  ghost predicate Contains(s: string, part: string) {
    exists at: nat :: StandsAt(s, part, at)
  }

  lemma ContainsInside(s: string, part: string, before: string, after: string)
    requires s == before + part + after
    ensures Contains(s, part)
  {
    assert StandsAt(s, part, |before|);
  }

  lemma ContainsTransitive(s: string, mid: string, part: string)
    requires Contains(s, mid) && Contains(mid, part)
    ensures Contains(s, part)
  {
    var a: nat :| StandsAt(s, mid, a);
    var b: nat :| StandsAt(mid, part, b);
    assert mid == mid[..b] + part + mid[b + |part|..];
    assert s == s[..a] + mid + s[a + |mid|..];
    ContainsInside(s, part, s[..a] + mid[..b], mid[b + |part|..] + s[a + |mid|..]);
  }

  /** Every part is in the joined text. */
  lemma {:induction false} JoinedContains(parts: seq<string>, separator: string, k: nat)
    requires k < |parts|
    ensures Contains(Joined(parts, separator), parts[k])
  {
    var all := Joined(parts, separator);
    if |parts| == 1 {
      ContainsInside(all, parts[0], "", "");
    } else if k == 0 {
      assert all == "" + parts[0] + (separator + Joined(parts[1..], separator));
      ContainsInside(all, parts[0], "", separator + Joined(parts[1..], separator));
    } else {
      JoinedContains(parts[1..], separator, k - 1);
      assert all == parts[0] + separator + Joined(parts[1..], separator) + "";
      ContainsInside(all, Joined(parts[1..], separator), parts[0] + separator, "");
      ContainsTransitive(all, Joined(parts[1..], separator), parts[k]);
    }
  }

  function Field(name: string, n: int, separator: char, rest: string): string {
    name + (Decimal.OfInt(n) + ([separator] + rest))
  }

  predicate Lacks(s: string, c: char) {
    forall i :: 0 <= i < |s| ==> s[i] != c
  }

  predicate Separates(c: char) {
    c != '-' && !('0' <= c <= '9')
  }

  /** Texts that lack a character, each followed by it, are told apart by its first occurrence. */
  lemma FirstSeparator(a: string, b: string, c: char, x: string, y: string)
    requires Lacks(a, c) && Lacks(b, c) && a + ([c] + x) == b + ([c] + y)
    ensures a == b && x == y
  {
    var s, t := a + ([c] + x), b + ([c] + y);
    assert s[|a|] == c && t[|b|] == c;
    assert forall i :: 0 <= i < |a| ==> s[i] == a[i];
    assert forall i :: 0 <= i < |b| ==> t[i] == b[i];
    assert |a| == |b|;
    assert a == s[..|a|] && b == t[..|b|];
    assert x == s[|a| + 1..] && y == t[|b| + 1..];
  }

  lemma DropFront(p: string, a: string, b: string)
    requires p + a == p + b
    ensures a == b
  {
    assert a == (p + a)[|p|..] && b == (p + b)[|p|..];
  }

  lemma FieldInjective(name: string, m: int, n: int, c: char, x: string, y: string)
    requires Separates(c) && Field(name, m, c, x) == Field(name, n, c, y)
    ensures m == n && x == y
  {
    DropFront(name, Decimal.OfInt(m) + ([c] + x), Decimal.OfInt(n) + ([c] + y));
    FirstSeparator(Decimal.OfInt(m), Decimal.OfInt(n), c, x, y);
    Decimal.OfIntInjective(m, n);
  }

  lemma Regrouped(a: string, b: string, c: string)
    ensures (a + b) + c == a + (b + c)
  {
  }

  lemma FieldPrefix(name: string, n: int, c: char, rest: string)
    ensures Field(name, n, c, "") + rest == Field(name, n, c, rest)
  {
    var number := Decimal.OfInt(n);
    Regrouped([c], "", rest);
    Regrouped(number, [c] + "", rest);
    Regrouped(name, number + ([c] + ""), rest);
    assert "" + rest == rest;
  }

  /** A field starts with another number's field exactly when the numbers agree. */
  lemma PrefixOfField(name: string, m: int, n: int, c: char, rest: string)
    requires Separates(c)
    ensures Field(name, n, c, "") <= Field(name, m, c, rest) <==> m == n
  {
    FieldPrefix(name, m, c, rest);
    if Field(name, n, c, "") <= Field(name, m, c, rest) {
      var more := Field(name, m, c, rest)[|Field(name, n, c, "")|..];
      assert Field(name, m, c, rest) == Field(name, n, c, "") + more;
      FieldPrefix(name, n, c, more);
      FieldInjective(name, m, n, c, rest, more);
    }
  }
}
