/** Machine words, byte-addressed memory and the small algebra the templates rely on. */
module Words {
  datatype Option<+T> = None | Some(value: T)

  const TWO64: int := 0x1_0000_0000_0000_0000

  type Word = x: int | 0 <= x < TWO64
  type Byte = x: int | 0 <= x < 256

  /** Reduction to 64 bits. */
  function Wrap(x: int): Word {
    x % TWO64
  }

  /** Total lookup: registers, slots and memory cells never written read as zero. */
  function Look<K>(m: map<K, Word>, k: K): Word {
    if k in m then m[k] else 0
  }

  lemma WrapAdd(x: int, y: int)
    ensures Wrap(x + Wrap(y)) == Wrap(x + y)
  {
    var q := y / TWO64;
    assert y == q * TWO64 + Wrap(y);
    WrapShift(x + Wrap(y), q);
  }

  lemma {:induction false} WrapShift(x: int, q: int)
    ensures Wrap(x + q * TWO64) == Wrap(x)
    decreases if q < 0 then -q else q
  {
    if q > 0 {
      WrapShift(x, q - 1);
      assert x + q * TWO64 == (x + (q - 1) * TWO64) + TWO64;
    } else if q < 0 {
      WrapShift(x, q + 1);
      assert x + (q + 1) * TWO64 == (x + q * TWO64) + TWO64;
    }
  }

  /** Guest memory, little endian, addresses modulo 2^64. */
  type Memory = map<Word, Byte>

  function ReadByte(m: Memory, a: Word): Byte {
    if a in m then m[a] else 0
  }

  function Store(m: Memory, a: Word, n: nat, v: int): Memory
    decreases n
  {
    if n == 0 then m else Store(m[a := v % 256], Wrap(a + 1), n - 1, v / 256)
  }

  function LoadBytes(m: Memory, a: Word, n: nat): nat
    decreases n
  {
    if n == 0 then 0 else ReadByte(m, a) + 256 * LoadBytes(m, Wrap(a + 1), n - 1)
  }

  function Load64(m: Memory, a: Word): Word {
    Wrap(LoadBytes(m, a, 8))
  }

  /** Distance from `a` up to `b` going forward modulo 2^64. */
  function Ahead(a: Word, b: Word): Word {
    Wrap(b - a)
  }

  /** The n bytes at `a` and the k bytes at `b` share no address. */
  predicate Apart(a: Word, n: nat, b: Word, k: nat) {
    n <= Ahead(a, b) && k <= Ahead(b, a)
  }

  lemma AheadStep(a: Word, b: Word)
    requires a != b
    ensures Ahead(Wrap(a + 1), b) == Ahead(a, b) - 1
    ensures Ahead(a, Wrap(b + 1)) == if Ahead(a, b) == TWO64 - 1 then 0 else Ahead(a, b) + 1
  {
    Near(b - a);
    Near(a + 1);
    Near(b + 1);
    Near(b - Wrap(a + 1));
    Near(Wrap(b + 1) - a);
    hide Wrap;
  }

  lemma Near(x: int)
    requires -TWO64 <= x < 2 * TWO64
    ensures Wrap(x) == if x < 0 then x + TWO64 else if x < TWO64 then x else x - TWO64
  {
  }

  /** A store of n bytes at `a` leaves every byte alone that is at least n ahead of `a`. */
  lemma {:induction false} StoreFrame(m: Memory, a: Word, n: nat, v: int, b: Word)
    requires n <= Ahead(a, b)
    ensures ReadByte(Store(m, a, n, v), b) == ReadByte(m, b)
    decreases n
  {
    if n > 0 {
      AheadStep(a, b);
      StoreFrame(m[a := v % 256], Wrap(a + 1), n - 1, v / 256, b);
    }
  }

  /** A store does not change a load from bytes apart from it. */
  lemma {:induction false} LoadFrame(m: Memory, a: Word, n: nat, v: int, b: Word, k: nat)
    requires Apart(a, n, b, k)
    ensures LoadBytes(Store(m, a, n, v), b, k) == LoadBytes(m, b, k)
    decreases k
  {
    if k > 0 {
      StoreFrame(m, a, n, v, b);
      if k > 1 {
        AheadStep(b, a);
        AheadStep(a, b);
        LoadFrame(m, a, n, v, Wrap(b + 1), k - 1);
      }
    }
  }
}
