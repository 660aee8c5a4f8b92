/** Machine integers, buffer limits and the few sequence helpers every other module uses. */
module Base {

  datatype Option<+T> = None | Some(value: T)

  /** ULONG and DWORD: 32 bits, unsigned. */
  const ULONG_RANGE := 0x1_0000_0000
  type ULong = n: int | 0 <= n < 0x1_0000_0000

  /** A LONGLONG that holds a KeQueryInterruptTime() value or a window length, in 100 ns units.
      Two such values never differ by more than a LONGLONG can hold. */
  type Ticks = n: int | 0 <= n < 0x8000_0000_0000_0000

  const TICKS_PER_SECOND := 10_000_000

  const RING_CAPACITY: nat := 256          // RS_MAX_OPERATIONS_PER_PID
  const BUCKET_COUNT: nat := 1021          // RS_HASH_TABLE_SIZE
  const MAX_REPORT_BLOCKED: nat := 256     // RS_MAX_REPORT_BLOCKED
  const MAX_ALLOWLIST_ENTRIES: nat := 128  // RS_MAX_ALLOWLIST_ENTRIES
  const MAX_ALLOWLIST_CHUNK: nat := 32     // RS_MAX_ALLOWLIST_CHUNK
  const MAX_NAME: nat := 259               // RS_MAX_..._NAME_LEN less the terminating NUL

  const NUL: char := '\0'

  function Min(a: int, b: int): int {
    if a <= b then a else b
  }

  /** The first n elements, or all of them. */
  function First<T>(s: seq<T>, n: nat): seq<T> {
    if |s| <= n then s else s[..n]
  }

  /** The last n elements, or all of them. */
  function Last<T>(s: seq<T>, n: nat): seq<T> {
    if |s| <= n then s else s[|s| - n..]
  }

  /** What a C program sees of a wide string: everything before the first NUL. */
  function CString(s: string): string {
    if s == [] || s[0] == NUL then [] else [s[0]] + CString(s[1..])
  }

  lemma {:induction false} CStringOfNulFree(s: string, rest: string)
    requires NUL !in s
    ensures CString(s) == s
    ensures CString(s + [NUL] + rest) == s
  {
    if s == [] {
    } else {
      CStringOfNulFree(s[1..], rest);
      assert (s + [NUL] + rest)[1..] == s[1..] + [NUL] + rest;
    }
  }

  lemma {:induction false} CStringIsNulFreePrefix(s: string)
    ensures NUL !in CString(s) && CString(s) <= s
    ensures CString(s) == s || s[|CString(s)|] == NUL
    ensures CString(s) == s <==> NUL !in s
  {
    if s == [] || s[0] == NUL {
    } else {
      CStringIsNulFreePrefix(s[1..]);
      assert s == [s[0]] + s[1..];
    }
  }

  // ---- Sizes of finite sets ---------------------------------------------------------------------

  lemma {:induction false} Subset<T>(a: set<T>, b: set<T>)
    requires a <= b
    ensures |a| <= |b|
    ensures |a| == |b| ==> a == b
  {
    assert b == a + (b - a);
  }

  /** A set of naturals below n has at most n elements, and n only if it is all of them. */
  lemma {:induction false} BoundedSet(s: set<int>, n: nat)
    requires forall x :: x in s ==> 0 <= x < n
    ensures |s| <= n
    ensures |s| == n <==> forall x :: 0 <= x < n ==> x in s
    decreases n
  {
    if n == 0 {
      assert forall x :: x !in s;
      assert s == {};
    } else {
      var rest := s - {n - 1};
      BoundedSet(rest, n - 1);
      assert s == if n - 1 in s then rest + {n - 1} else rest;
    }
  }
}
