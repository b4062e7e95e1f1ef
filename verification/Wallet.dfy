/** Wallet accounts funded at genesis. */
module Wallet {
  import opened Wrappers
  import opened Ledger
  import opened Text

  datatype WalletAccount = WalletAccount(name: string, secretKey: ZkKey, value: nat) {
    function PublicKey(): ZkPublicKey {
      ZkPublicKey(secretKey)
    }
  }

  function LittleEndian(n: nat, width: nat): (r: seq<Byte>)
    ensures |r| == width
  {
    if width == 0 then [] else [n % 256] + LittleEndian(n / 256, width - 1)
  }

  /** Bytes of "wl". */
  const WALLET_PREFIX: seq<Byte> := [0x77, 0x6C]

  function Deterministic(index: nat, value: nat): WalletAccount
    requires value > 0
  {
    WalletAccount("wallet-user-" + Decimal(index), ZkKeyFromBytes(WALLET_PREFIX + LittleEndian(index, 8)), value)
  }

  function Total(accounts: seq<WalletAccount>): nat {
    if accounts == [] then 0 else Total(accounts[..|accounts| - 1]) + accounts[|accounts| - 1].value
  }

  /** Splits the funds evenly: nothing is lost or created, every account is funded, shares differ by at most one
      unit, and exactly the first `totalFunds % users` accounts get the larger share. */
  method Uniform(totalFunds: nat, users: nat) returns (accounts: seq<WalletAccount>)
    requires 0 < users <= totalFunds < U64_MODULUS
    ensures |accounts| == users && Total(accounts) == totalFunds
    ensures forall i :: 0 <= i < users ==>
              accounts[i] == Deterministic(i, totalFunds / users + if i < totalFunds % users then 1 else 0)
  {
    var baseAllocation := totalFunds / users;
    var remainder := totalFunds % users;
    ghost var extra := remainder;
    QuotientPositive(totalFunds, users);
    accounts := [];
    for idx := 0 to users
      invariant |accounts| == idx
      invariant remainder == if idx < extra then extra - idx else 0
      invariant Total(accounts) == Times(idx, baseAllocation) + (extra - remainder)
      invariant forall i :: 0 <= i < idx ==>
                  accounts[i] == Deterministic(i, baseAllocation + if i < extra then 1 else 0)
    {
      var amount := baseAllocation;
      if remainder > 0 {
        amount := amount + 1;
        remainder := remainder - 1;
      }
      TotalSnoc(accounts, Deterministic(idx, amount));
      accounts := accounts + [Deterministic(idx, amount)];
    }
    TimesIsProduct(users, baseAllocation);
  }

  lemma TotalSnoc(accounts: seq<WalletAccount>, last: WalletAccount)
    ensures Total(accounts + [last]) == Total(accounts) + last.value
  {
    assert (accounts + [last])[..|accounts|] == accounts;
  }

  ghost function Times(n: nat, k: nat): nat {
    if n == 0 then 0 else Times(n - 1, k) + k
  }

  lemma {:induction false} TimesIsProduct(n: nat, k: nat)
    ensures Times(n, k) == n * k
  {
    if n > 0 {
      TimesIsProduct(n - 1, k);
    }
  }

  lemma QuotientPositive(a: nat, b: nat)
    requires 0 < b <= a
    ensures a / b > 0 && a == b * (a / b) + a % b
  {
  }

  lemma {:induction false} LittleEndianInjective(a: nat, b: nat, width: nat)
    requires LittleEndian(a, width) == LittleEndian(b, width)
    requires a < Pow256(width) && b < Pow256(width)
    ensures a == b
  {
    if width > 0 {
      assert LittleEndian(a, width)[0] == LittleEndian(b, width)[0];
      assert LittleEndian(a, width)[1..] == LittleEndian(b, width)[1..];
      LittleEndianInjective(a / 256, b / 256, width - 1);
    }
  }

  function Pow256(n: nat): nat {
    if n == 0 then 1 else 256 * Pow256(n - 1)
  }

  /** Accounts of different users never share a key. */
  lemma DeterministicKeysDistinct(i: nat, j: nat, v: nat, w: nat)
    requires i < U64_MODULUS && j < U64_MODULUS && v > 0 && w > 0
    requires Deterministic(i, v).PublicKey() == Deterministic(j, w).PublicKey()
    ensures i == j
  {
    var a, b := Deterministic(i, v).secretKey.material, Deterministic(j, w).secretKey.material;
    assert LittleEndian(i, 8) == a[2..10] && LittleEndian(j, 8) == b[2..10];
    assert Pow256(8) == U64_MODULUS by {
      assert Pow256(2) == 0x1_0000 && Pow256(4) == 0x1_0000_0000;
    }
    LittleEndianInjective(i, j, 8);
  }

  /** The accounts of an evenly split wallet all have different keys. */
  lemma UniformKeysDistinct(accounts: seq<WalletAccount>, values: seq<nat>, i: nat, j: nat)
    requires |accounts| == |values| <= U64_MODULUS && i < j < |accounts|
    requires forall k :: 0 <= k < |accounts| ==> values[k] > 0 && accounts[k] == Deterministic(k, values[k])
    ensures accounts[i].PublicKey() != accounts[j].PublicKey()
  {
    if accounts[i].PublicKey() == accounts[j].PublicKey() {
      DeterministicKeysDistinct(i, j, values[i], values[j]);
    }
  }
}
