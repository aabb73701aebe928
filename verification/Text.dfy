/** Strings as the services use them: upper-casing and the lexicographic order of std::string. */
module Text {

  /** toupper in the C locale: only the letters a to z change. */
  function UpperChar(c: char): char {
    if 'a' <= c <= 'z' then (c as int - 'a' as int + 'A' as int) as char else c
  }

  /** A string with every character in upper case. */
  function Upper(s: string): (r: string)
    ensures |r| == |s|
  {
    seq(|s|, i requires 0 <= i < |s| => UpperChar(s[i]))
  }

  /** Rewrites its buffer character by character. */
  method ToUpper(value: string) returns (buffer: string)
    ensures buffer == Upper(value)
  {
    buffer := value;
    for i := 0 to |value|
      invariant |buffer| == |value|
      invariant buffer[..i] == Upper(value)[..i] && buffer[i..] == value[i..]
    {
      buffer := buffer[i := UpperChar(buffer[i])];
    }
  }

  const LOWER_CASE: string := "abcdefghijklmnopqrstuvwxyz"
  const UPPER_CASE: string := "ABCDEFGHIJKLMNOPQRSTUVWXYZ"

  lemma LowerAt(k: nat)
    requires k < 26
    ensures LOWER_CASE[k] as int == 'a' as int + k
  {
  }

  lemma UpperAt(k: nat)
    requires k < 26
    ensures UPPER_CASE[k] as int == 'A' as int + k
  {
  }

  /** A letter of the alphabet becomes its capital. */
  lemma UpperLetter(s: string, i: nat, k: nat)
    requires i < |s| && k < 26 && s[i] == LOWER_CASE[k]
    ensures Upper(s)[i] == UPPER_CASE[k]
  {
    LowerAt(k);
    UpperAt(k);
  }

  lemma LowerHas(c: char)
    ensures 'a' <= c <= 'z' ==> c in LOWER_CASE
  {
    if 'a' <= c <= 'z' {
      LowerAt(c as int - 'a' as int);
      assert LOWER_CASE[c as int - 'a' as int] == c;
    }
  }

  /** Everything else stays as it is. */
  lemma UpperOther(s: string, i: nat)
    requires i < |s| && s[i] !in LOWER_CASE
    ensures Upper(s)[i] == s[i]
  {
    LowerHas(s[i]);
  }

  /** Normalising twice changes nothing more, and never creates or removes another character. */
  lemma UpperIdempotent(s: string, c: char)
    ensures Upper(Upper(s)) == Upper(s)
    ensures !('a' <= c <= 'z') && !('A' <= c <= 'Z') ==> (c in Upper(s) <==> c in s)
  {
    if c in s && !('a' <= c <= 'z') && !('A' <= c <= 'Z') {
      var i :| 0 <= i < |s| && s[i] == c;
      assert Upper(s)[i] == c;
    }
  }

  /** operator< on strings: the first difference decides, and a proper prefix comes first. */
  predicate Less(a: string, b: string) {
    if b == [] then false
    else if a == [] then true
    else if a[0] != b[0] then a[0] < b[0]
    else Less(a[1..], b[1..])
  }

  lemma {:induction false} LessTotal(a: string, b: string)
    ensures a == b || Less(a, b) || Less(b, a)
    ensures !(Less(a, b) && Less(b, a)) && !Less(a, a)
  {
    if a != [] && b != [] && a[0] == b[0] {
      LessTotal(a[1..], b[1..]);
      assert a == [a[0]] + a[1..] && b == [b[0]] + b[1..];
    }
    if a != [] { LessTotal(a[1..], a[1..]); }
  }

  lemma {:induction false} LessTransitive(a: string, b: string, c: string)
    requires Less(a, b) && Less(b, c)
    ensures Less(a, c)
  {
    if a != [] && a[0] == b[0] && b[0] == c[0] {
      LessTransitive(a[1..], b[1..], c[1..]);
    }
  }

  /** Strings that start with parts of equal length are ordered by those parts first. */
  lemma {:induction false} LessAppend(a: string, b: string, x: string, y: string)
    requires |a| == |b|
    ensures Less(a + x, b + y) <==> Less(a, b) || (a == b && Less(x, y))
  {
    if a == [] {
      assert a + x == x && b + y == y;
    } else {
      assert (a + x)[1..] == a[1..] + x && (b + y)[1..] == b[1..] + y;
      LessAppend(a[1..], b[1..], x, y);
      assert a == [a[0]] + a[1..] && b == [b[0]] + b[1..];
    }
  }
}
