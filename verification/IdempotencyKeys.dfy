/** The string under which a request is cached: four parts, each preceded by its length in decimal and a colon. */
module IdempotencyKeys {
  import opened Results

  const DIGITS := "0123456789"

  predicate IsDigit(c: char) {
    '0' <= c <= '9'
  }

  /** The decimal digits of `n`, without leading zeros. */
  function Decimal(n: nat): (s: string)
    ensures s != [] && forall i :: 0 <= i < |s| ==> IsDigit(s[i])
  {
    if n < 10 then [DIGITS[n]] else Decimal(n / 10) + [DIGITS[n % 10]]
  }

  function DigitValue(c: char): (d: nat)
    requires IsDigit(c)
    ensures d < 10 && DIGITS[d] == c
  {
    (c as int) - ('0' as int)
  }

  function Value(s: string): (n: nat)
    requires forall i :: 0 <= i < |s| ==> IsDigit(s[i])
  {
    if s == [] then 0 else 10 * Value(s[..|s| - 1]) + DigitValue(s[|s| - 1])
  }

  lemma {:induction false} ValueOfDecimal(n: nat)
    ensures Value(Decimal(n)) == n
    decreases n
  {
    var s := Decimal(n);
    if n < 10 {
      assert s == [DIGITS[n]] && s[..0] == [];
    } else {
      ValueOfDecimal(n / 10);
      assert s[..|s| - 1] == Decimal(n / 10);
    }
  }

  function AppendPart(key: string, value: string): (s: string) {
    key + Decimal(|value|) + ":" + value
  }

  function Build(scope: string, service: string, method_: string, key: string): (s: string) {
    AppendPart(AppendPart(AppendPart(AppendPart("", scope), service), method_), key)
  }

  function Part(value: string): (s: string) {
    Decimal(|value|) + ":" + value
  }

  /** The position of the first character that is not a digit. */
  function Digits(s: string): (n: nat)
    ensures n <= |s| && (forall i :: 0 <= i < n ==> IsDigit(s[i])) && (n < |s| ==> !IsDigit(s[n]))
  {
    if s == [] || !IsDigit(s[0]) then 0 else 1 + Digits(s[1..])
  }

  /** Reads one part back, with what follows it. */
  function Split(s: string): (r: Option<(string, string)>) {
    var d := Digits(s);
    if d == |s| || s[d] != ':' || d + 1 + Value(s[..d]) > |s| then None
    else Some((s[d + 1..d + 1 + Value(s[..d])], s[d + 1 + Value(s[..d])..]))
  }

  lemma DigitsEnd(s: string, n: nat)
    requires n < |s| && (forall i :: 0 <= i < n ==> IsDigit(s[i])) && !IsDigit(s[n])
    ensures Digits(s) == n
  {
  }

  /** A part reads back as itself, whatever bytes it holds and whatever follows. */
  lemma SplitPart(value: string, rest: string)
    ensures Split(Part(value) + rest) == Some((value, rest))
  {
    var n := Decimal(|value|);
    var s := Part(value) + rest;
    assert s == n + (":" + value + rest);
    assert s[|n|] == ':';
    DigitsEnd(s, |n|);
    assert s[..|n|] == n;
    ValueOfDecimal(|value|);
    assert s[|n| + 1..|n| + 1 + |value|] == value && s[|n| + 1 + |value|..] == rest;
  }

  lemma BuildIsParts(scope: string, service: string, method_: string, key: string)
    ensures Build(scope, service, method_, key) == Part(scope) + (Part(service) + (Part(method_) + (Part(key) + "")))
  {
  }

  /** Different scopes, services, methods or keys never share a cache entry. */
  lemma BuildInjective(scope: string, service: string, method_: string, key: string,
                       scope': string, service': string, method': string, key': string)
    requires Build(scope, service, method_, key) == Build(scope', service', method', key')
    ensures scope == scope' && service == service' && method_ == method' && key == key'
  {
    BuildIsParts(scope, service, method_, key);
    BuildIsParts(scope', service', method', key');
    hide Part, Split, Build;
    SplitPart(scope, Part(service) + (Part(method_) + (Part(key) + "")));
    SplitPart(scope', Part(service') + (Part(method') + (Part(key') + "")));
    SplitPart(service, Part(method_) + (Part(key) + ""));
    SplitPart(service', Part(method') + (Part(key') + ""));
    SplitPart(method_, Part(key) + "");
    SplitPart(method', Part(key') + "");
    SplitPart(key, "");
    SplitPart(key', "");
  }
}
