// Machine types and small helpers shared by every module of the model.

module Base {

  /** The C++ fixed-width unsigned integer types. */
  type byte = n: int | 0 <= n < 0x100
  type u16 = n: int | 0 <= n < 0x1_0000
  type u32 = n: int | 0 <= n < 0x1_0000_0000
  type u64 = n: int | 0 <= n < 0x1_0000_0000_0000_0000

  /** A std::string: a sequence of 8-bit characters. */
  type ByteString = s: string | forall i | 0 <= i < |s| :: s[i] as int < 0x100

  /** A float travels and is stored as its 32-bit IEEE-754 bit pattern; no float arithmetic is modelled. */
  type FloatBits = u32

  datatype Option<T> = None | Some(value: T)

  function Max(a: int, b: int): (m: int)
    ensures m >= a && m >= b && (m == a || m == b)
  {
    if a >= b then a else b
  }

  function Min(a: int, b: int): (m: int)
    ensures m <= a && m <= b && (m == a || m == b)
  {
    if a <= b then a else b
  }

  /** Unsigned 32-bit addition, which wraps around. */
  function AddU32(a: u32, b: int): (r: u32)
    requires b >= 0
    ensures a + b < 0x1_0000_0000 ==> r == a + b
  {
    (a + b) % 0x1_0000_0000
  }

  /** Unsigned 64-bit addition, which wraps around. */
  function AddU64(a: u64, b: int): (r: u64)
    requires b >= 0
    ensures a + b < 0x1_0000_0000_0000_0000 ==> r == a + b
  {
    (a + b) % 0x1_0000_0000_0000_0000
  }

  /** Unsigned 32-bit subtraction, which wraps around. */
  function SubU32(a: u32, b: u32): (r: u32)
    ensures a >= b ==> r == a - b
    ensures a < b ==> r == a - b + 0x1_0000_0000
  {
    (a - b) % 0x1_0000_0000
  }

  /** The decimal rendering produced by std::to_string for an unsigned value. */
  function DecimalString(n: nat): (s: string)
    ensures |s| >= 1
    ensures forall i | 0 <= i < |s| :: '0' <= s[i] <= '9'
    decreases n
  {
    var digit := [('0' as int + n % 10) as char];
    if n < 10 then digit else DecimalString(n / 10) + digit
  }

  /** std::to_string on naturals is injective: equal digit strings come from equal numbers. */
  lemma {:induction false} DecimalStringInjective(m: nat, n: nat)
    requires m != n
    ensures DecimalString(m) != DecimalString(n)
    decreases m
  {
    var sm, sn := DecimalString(m), DecimalString(n);
    if m % 10 != n % 10 {
      assert sm[|sm| - 1] != sn[|sn| - 1];
    } else if m < 10 || n < 10 {
      assert m / 10 != n / 10;
      if m < 10 {
        assert |sm| == 1 && |sn| >= 2;
      } else {
        assert |sn| == 1 && |sm| >= 2;
      }
    } else {
      DecimalStringInjective(m / 10, n / 10);
      assert sm[..|sm| - 1] == DecimalString(m / 10);
      assert sn[..|sn| - 1] == DecimalString(n / 10);
    }
  }

  /** Removes element `i`, keeping the others in order (std::vector::erase at begin() + i). */
  function RemoveAt<T>(s: seq<T>, i: nat): (r: seq<T>)
    requires i < |s|
    ensures |r| == |s| - 1
    ensures forall k | 0 <= k < i :: r[k] == s[k]
    ensures forall k | i <= k < |r| :: r[k] == s[k + 1]
  {
    s[..i] + s[i + 1..]
  }

  /** The last index of a character (std::string::find_last_of / rfind of one character),
      None when the character does not occur. */
  function LastIndex(s: string, c: char): (r: Option<nat>)
    ensures r.Some? ==> r.value < |s| && s[r.value] == c
    ensures r.None? <==> c !in s
    decreases |s|
  {
    if s == [] then None
    else if s[|s| - 1] == c then Some(|s| - 1)
    else
      assert s == s[..|s| - 1] + [s[|s| - 1]];
      LastIndex(s[..|s| - 1], c)
  }

  /** Nothing after the index LastIndex finds is that character. */
  lemma {:induction false} LastIndexIsLast(s: string, c: char, k: nat)
    requires LastIndex(s, c).Some? && LastIndex(s, c).value < k < |s|
    ensures s[k] != c
    decreases |s|
  {
    if k < |s| - 1 {
      LastIndexIsLast(s[..|s| - 1], c, k);
    }
  }

  /** The prefix of length i + 1 is the prefix of length i and element i. */
  lemma TakeSnoc<T>(s: seq<T>, i: nat)
    requires i < |s|
    ensures s[..i + 1] == s[..i] + [s[i]]
  {
  }

  /** Concatenation is associative. */
  lemma AppendAssoc<T>(a: seq<T>, b: seq<T>, c: seq<T>)
    ensures (a + b) + c == a + (b + c)
  {
  }

  /** No element occurs twice. */
  predicate NoDup<T(==)>(s: seq<T>)
  {
    forall i, j | 0 <= i < j < |s| :: s[i] != s[j]
  }

  /** The ways of splitting a three-field message between a prefix and a suffix. */
  lemma Regroup3<T>(pre: seq<T>, a: seq<T>, b: seq<T>, c: seq<T>, rest: seq<T>)
    ensures pre + (a + b + c) + rest == pre + a + (b + c + rest)
    ensures pre + (a + b + c) + rest == (pre + a) + b + (c + rest)
    ensures pre + (a + b + c) + rest == (pre + a + b) + c + rest
  {
  }

  lemma Regroup4<T>(pre: seq<T>, a: seq<T>, b: seq<T>, c: seq<T>, e: seq<T>, rest: seq<T>)
    ensures pre + (a + b + c + e) + rest == pre + a + (b + c + e + rest)
    ensures pre + (a + b + c + e) + rest == (pre + a) + b + (c + e + rest)
    ensures pre + (a + b + c + e) + rest == (pre + a + b) + c + (e + rest)
    ensures pre + (a + b + c + e) + rest == (pre + a + b + c) + e + rest
  {
  }

  lemma Regroup5<T>(pre: seq<T>, a: seq<T>, b: seq<T>, c: seq<T>, e: seq<T>, f: seq<T>, rest: seq<T>)
    ensures pre + (a + b + c + e + f) + rest == pre + a + (b + c + e + f + rest)
    ensures pre + (a + b + c + e + f) + rest == (pre + a) + b + (c + e + f + rest)
    ensures pre + (a + b + c + e + f) + rest == (pre + a + b) + c + (e + f + rest)
    ensures pre + (a + b + c + e + f) + rest == (pre + a + b + c) + e + (f + rest)
  {
  }
}
