/** Entity model of the wallet: accounts, payments, favorites, the error
    taxonomy, and Go's 64-bit integer arithmetic. */
module Types {

  const MinInt64: int := -0x8000_0000_0000_0000
  const MaxInt64: int := 0x7fff_ffff_ffff_ffff
  const TwoTo64: int := 0x1_0000_0000_0000_0000

  /** Go's `int64`, the representation of IDs and of `types.Money`. */
  type int64 = x: int | MinInt64 <= x <= MaxInt64

  /** Two's-complement wrap-around: the int64 that is congruent to `x` modulo 2^64. */
  function Wrap64(x: int): (r: int64)
    ensures MinInt64 <= x <= MaxInt64 ==> r == x
  {
    (x - MinInt64) % TwoTo64 + MinInt64
  }

  /** The wrapped value differs from `x` by a multiple of 2^64, and is the
      unique such int64. */
  lemma Wrap64Congruent(x: int, y: int64)
    ensures (Wrap64(x) - x) % TwoTo64 == 0
    ensures (y - x) % TwoTo64 == 0 ==> y == Wrap64(x)
  {
    var q := (x - MinInt64) / TwoTo64;
    assert Wrap64(x) == x - q * TwoTo64;
    if (y - x) % TwoTo64 == 0 {
      var p := (y - x) / TwoTo64;
      assert y == x + p * TwoTo64;
      assert y - Wrap64(x) == (p + q) * TwoTo64;
      assert -TwoTo64 < y - Wrap64(x) < TwoTo64;
    }
  }

  /** Go's `a + b` on int64. */
  function Add64(a: int64, b: int64): int64
  {
    Wrap64(a + b)
  }

  /** Wrapping after every addition or only at the end gives the same int64. */
  lemma WrapAdd(x: int, y: int)
    ensures Wrap64(Wrap64(x) + y) == Wrap64(x + y)
  {
    var q := (x - MinInt64) / TwoTo64;
    assert Wrap64(x) == x - TwoTo64 * q;
    assert Wrap64(x) + y - MinInt64 == (x + y - MinInt64) - TwoTo64 * q;
  }

  /** Adding two partial sums that each wrapped gives the wrapped total. */
  lemma WrapAddBoth(x: int, y: int)
    ensures Add64(Wrap64(x), Wrap64(y)) == Wrap64(x + y)
  {
    WrapAdd(x, Wrap64(y));
    WrapAdd(y, x);
  }

  const StatusInProgress: string := "INPROGRESS"
  const StatusFail: string := "FAIL"

  datatype Account = Account(id: int64, phone: string, balance: int64)

  datatype Payment = Payment(id: string, accountID: int64, amount: int64, category: string, status: string)

  datatype Favorite = Favorite(id: string, accountID: int64, name: string, amount: int64, category: string)

  /** Key projections used by the linear scans. */
  function AccountID(a: Account): int64 { a.id }
  function AccountPhone(a: Account): string { a.phone }
  function PaymentID(p: Payment): string { p.id }
  function FavoriteID(f: Favorite): string { f.id }
  function FavoriteName(f: Favorite): string { f.name }

  /** The wallet's sentinel errors. */
  datatype Error =
    | PhoneRegistered
    | FavoriteRegistered
    | AmountMustBePositive
    | AccountNotFound
    | NotEnoughBalance
    | PaymentNotFound
    | FavoriteNotFound

  datatype Result<T> = Ok(value: T) | Err(error: Error)

  datatype Option<T> = None | Some(value: T)
}
