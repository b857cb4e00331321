/** Types shared by every component of the model. */
module Prelude {

  datatype Option<+T> = None | Some(value: T)

  /** An octet. Go strings and byte slices are sequences of these. */
  type byte = b: int | 0 <= b < 256

  type Bytes = seq<byte>

  /** `n` shifted right by `k` bits. */
  function Shr(n: nat, k: nat): nat {
    if k == 0 then n else Shr(n / 2, k - 1)
  }

  /** The lowest `k` bits of `n`. */
  function Low(n: nat, k: nat): nat {
    if k == 0 then 0 else n % 2 + 2 * Low(n / 2, k - 1)
  }

  lemma TwoMoreBits(n: nat, k: nat)
    ensures Shr(n, k + 2) == Shr(n / 4, k) && Low(n, k + 2) == n % 4 + 4 * Low(n / 4, k)
  {
    assert n / 2 / 2 == n / 4;
    assert Shr(n, k + 2) == Shr(n / 2, k + 1) == Shr(n / 2 / 2, k);
    assert Low(n, k + 2) == n % 2 + 2 * Low(n / 2, k + 1);
    assert Low(n / 2, k + 1) == n / 2 % 2 + 2 * Low(n / 2 / 2, k);
  }

  /** Shifts and masks of two, four and six bits as division. */
  lemma Shifts(n: nat)
    ensures Shr(n, 2) == n / 4 && Shr(n, 4) == n / 16 && Shr(n, 6) == n / 64
    ensures Low(n, 2) == n % 4 && Low(n, 4) == n % 16 && Low(n, 6) == n % 64
  {
    TwoMoreBits(n, 0);
    TwoMoreBits(n, 2);
    TwoMoreBits(n, 4);
    TwoMoreBits(n / 4, 0);
    TwoMoreBits(n / 4, 2);
    TwoMoreBits(n / 16, 0);
    assert n / 4 / 4 == n / 16 && n / 16 / 4 == n / 64;
  }

  lemma SomeMember(s: set<int>)
    ensures s == {} || exists k :: k in s
  {
    if forall k :: k !in s {
      assert s == {};
    }
  }

  lemma Assoc(a: Bytes, b: Bytes, c: Bytes)
    ensures (a + b) + c == a + (b + c)
  {
  }
}
