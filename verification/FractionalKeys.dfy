/** Position keys for list items: non-empty base-62 fractions that do not end in the
    lowest digit, ordered as byte strings. The library behind `generate_key_between`
    promises a key strictly between its bounds; a digit-by-digit midpoint meets that
    promise and is what the services below rely on. */
module FractionalKeys {
  import opened Wrappers

  const BASE := 62

  type Digit = n: nat | n < BASE
  type Digits = seq<Digit>

  /** A fraction is in lowest form when it does not end in the lowest digit. */
  predicate Trimmed(s: Digits) {
    s != [] ==> s[|s| - 1] != 0
  }

  type Key = s: Digits | s != [] && Trimmed(s) witness [1]

  /** Lexicographic order, shorter first on a common prefix: `COLLATE "C"`. */
  predicate Less(s: Digits, t: Digits) {
    if t == [] then false
    else if s == [] then true
    else s[0] < t[0] || (s[0] == t[0] && Less(s[1..], t[1..]))
  }

  lemma {:induction false} LessIrreflexive(s: Digits)
    ensures !Less(s, s)
  {
    if s != [] { LessIrreflexive(s[1..]); }
  }

  lemma {:induction false} LessTransitive(s: Digits, t: Digits, u: Digits)
    requires Less(s, t) && Less(t, u)
    ensures Less(s, u)
  {
    if s != [] && s[0] == t[0] == u[0] { LessTransitive(s[1..], t[1..], u[1..]); }
  }

  lemma {:induction false} LessTotal(s: Digits, t: Digits)
    ensures Less(s, t) || s == t || Less(t, s)
  {
    if s != [] && t != [] {
      LessTotal(s[1..], t[1..]);
      assert s == [s[0]] + s[1..] && t == [t[0]] + t[1..];
    }
  }

  /** The bytes a digit is stored as: `0-9`, then `A-Z`, then `a-z`. */
  function DigitChar(d: Digit): char {
    if d < 10 then '0' + d as char
    else if d < 36 then 'A' + (d - 10) as char
    else 'a' + (d - 36) as char
  }

  /** Only digits and letters are stored, each of the 62 for one digit. */
  lemma DigitCharIsInjective(d: Digit, e: Digit)
    ensures DigitChar(d) == DigitChar(e) ==> d == e
    ensures '0' <= DigitChar(d) <= '9' || 'A' <= DigitChar(d) <= 'Z' || 'a' <= DigitChar(d) <= 'z'
  {
  }

  predicate BytesLess(s: string, t: string) {
    if t == "" then false
    else if s == "" then true
    else s[0] < t[0] || (s[0] == t[0] && BytesLess(s[1..], t[1..]))
  }

  function Encode(s: Digits): string {
    if s == [] then "" else [DigitChar(s[0])] + Encode(s[1..])
  }

  /** Byte order on the stored text is the order on digits, which is why the column
      needs `COLLATE "C"`. */
  lemma {:induction false} ByteOrderIsDigitOrder(s: Digits, t: Digits)
    ensures BytesLess(Encode(s), Encode(t)) == Less(s, t)
  {
    if s != [] && t != [] { ByteOrderIsDigitOrder(s[1..], t[1..]); }
  }

  function Tail(s: Digits): Digits {
    if s == [] then [] else s[1..]
  }

  lemma TailKeepsTrimmed(s: Digits)
    requires Trimmed(s)
    ensures Trimmed(Tail(s))
  {
  }

  function Below(hi: Option<Key>, k: Digits): bool {
    hi.Some? ==> Less(k, hi.value)
  }

  /** A key strictly above `lo` (empty meaning unbounded) and strictly below `hi`
      (`None` meaning unbounded). */
  function Midpoint(lo: Digits, hi: Option<Key>): (k: Key)
    requires Trimmed(lo)
    requires hi.Some? ==> Less(lo, hi.value)
    ensures Less(lo, k)
    ensures Below(hi, k)
    decreases |lo| + (if hi.Some? then |hi.value| else 0), hi.Some?
  {
    var dLo: int := if lo == [] then 0 else lo[0];
    var dHi: int := if hi.None? then BASE else hi.value[0];
    TailKeepsTrimmed(lo);
    if dLo == dHi then
      assert hi.value[1..] != [] by { assert !Less(Tail(lo), []); }
      var rest: Key := hi.value[1..];
      var k := Midpoint(Tail(lo), Some(rest));
      [dLo] + k
    else if dHi - dLo > 1 then
      [(dLo + dHi) / 2]
    else if hi.Some? && |hi.value| > 1 then
      hi.value[..1]
    else
      var k := Midpoint(Tail(lo), None);
      [dLo] + k
  }

  /** `fi.generate_key_between(lo, hi)`. */
  function KeyBetween(lo: Option<Key>, hi: Option<Key>): (k: Key)
    requires lo.Some? && hi.Some? ==> Less(lo.value, hi.value)
    ensures lo.Some? ==> Less(lo.value, k)
    ensures hi.Some? ==> Less(k, hi.value)
  {
    Midpoint(if lo.Some? then lo.value else [], hi)
  }
}
