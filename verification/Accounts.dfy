/** Solana accounts as a program meets them, and what an instruction returns. */
module Accounts {
  import opened Common
  import opened Bytes

  datatype Account = Account(owner: Key, data: seq<u8>)

  type AccountMap = map<Key, Account>

  datatype Refusal =
    | InvalidInstructionData
    | MissingRequiredSignature
    | InvalidAccountData
    | NotAMember
    | DWalletMismatch
    | NotDWalletOwner
    | InvalidDWalletAccount
    | InvalidTerms
    | DuplicateMember
    | NotActive
    | WrongParent
    | InvalidParent
    | InvalidVoucherBump
    | VoucherMismatch
    | InvalidBump
    | NotEnoughAccountKeys
    | ArithmeticOverflow
    | NoAddress
    | AccountNotCreated
    | CallFailed
    | ForeignAccountChanged

  datatype Outcome = Done | Refused(error: Refusal)

  /** An address with no account reads as an empty one of the system program. */
  function DataOf(accounts: AccountMap, key: Key): seq<u8> {
    if key in accounts then accounts[key].data else []
  }

  predicate OwnedBy(accounts: AccountMap, key: Key, program: Key) {
    key in accounts && accounts[key].owner == program
  }

  /** An account of `program` that starts with its discriminator. */
  predicate IsKind(account: Account, program: Key, discriminator: u8) {
    account.owner == program && |account.data| > 0 && account.data[0] == discriminator
  }

  /** Every account but those at `keys` is as before, and no other came or went. */
  ghost predicate OnlyChanges(before: AccountMap, after: AccountMap, keys: set<Key>) {
    forall k | k !in keys :: (k in after <==> k in before) && (k in before ==> after[k] == before[k])
  }

  /** The accounts that `picks` accepts, decoded. */
  function Select<T>(accounts: AccountMap, picks: Account -> bool, decode: Account -> T): map<Key, T> {
    map k | k in accounts && picks(accounts[k]) :: decode(accounts[k])
  }

  /** Setting one account sets its own entry, or removes it, and no other. */
  lemma SelectSet<T>(accounts: AccountMap, picks: Account -> bool, decode: Account -> T, k: Key, account: Account)
    ensures Select(accounts[k := account], picks, decode) ==
              if picks(account) then Select(accounts, picks, decode)[k := decode(account)]
              else Select(accounts, picks, decode) - {k}
  {
    var before, after := Select(accounts, picks, decode), Select(accounts[k := account], picks, decode);
    forall x | x != k ensures x in after <==> x in before {}
  }

  /** One account set: its own entry of a table is set, or it has none, and no other changes. */
  lemma Selected<T>(accounts: AccountMap, picks: Account -> bool, decode: Account -> T, k: Key, account: Account)
    ensures picks(account) ==>
              Select(accounts[k := account], picks, decode) == Select(accounts, picks, decode)[k := decode(account)]
    ensures !picks(account) && (k !in accounts || !picks(accounts[k])) ==>
              Select(accounts[k := account], picks, decode) == Select(accounts, picks, decode)
  {
    SelectSet(accounts, picks, decode, k, account);
  }

  lemma SelectSame<T>(before: AccountMap, after: AccountMap, picks: Account -> bool, decode: Account -> T)
    requires forall k | k in before && picks(before[k]) :: k in after && after[k] == before[k]
    requires forall k | k in after && picks(after[k]) :: k in before && picks(before[k])
    ensures Select(after, picks, decode) == Select(before, picks, decode)
  {
  }

  /**
   * What the runtime lets other programs do between two instructions of
   * `program`: its accounts stay as they are, and an account newly assigned
   * to it holds only zeros.
   */
  ghost predicate RuntimeAllows(program: Key, before: AccountMap, after: AccountMap) {
    && (forall k <- before | before[k].owner == program :: k in after && after[k] == before[k])
    && (forall k <- after | after[k].owner == program && !(k in before && before[k].owner == program) ::
          forall i | 0 <= i < |after[k].data| :: after[k].data[i] == 0)
  }

  /** The owner a real dWallet account of the dWallet program states. */
  function DWalletOwner(accounts: AccountMap, dwallet: Key, ika: Key): Option<Key> {
    if dwallet in accounts && IsKind(accounts[dwallet], ika, 97) && |accounts[dwallet].data| >= 34
    then Some(Key(accounts[dwallet].data[2..34]))
    else None
  }

  /** It is the program's own, starts with its discriminator, and holds the owner after two bytes. */
  lemma DWalletOwnerExactly(accounts: AccountMap, dwallet: Key, ika: Key, owner: Key)
    ensures DWalletOwner(accounts, dwallet, ika) == Some(owner) <==>
              exists version: u8, rest: seq<u8> ::
                dwallet in accounts && accounts[dwallet] == Account(ika, [97, version] + owner.bytes + rest)
  {
    if DWalletOwner(accounts, dwallet, ika) == Some(owner) {
      var data := accounts[dwallet].data;
      assert data == [97, data[1]] + owner.bytes + data[34..];
      assert accounts[dwallet] == Account(ika, [97, data[1]] + owner.bytes + data[34..]);
    }
    if version: u8, rest: seq<u8> :|
      dwallet in accounts && accounts[dwallet] == Account(ika, [97, version] + owner.bytes + rest)
    {
      assert accounts[dwallet].data[2..34] == owner.bytes;
    }
  }

  /** Whether one member is listed twice: every pair is compared. */
  method HasDuplicate(members: seq<Key>) returns (duplicate: bool)
    ensures duplicate <==> exists i, j | 0 <= i < j < |members| :: members[i] == members[j]
  {
    for i := 0 to |members|
      invariant forall x, y | 0 <= x < i && x < y < |members| :: members[x] != members[y]
    {
      for j := i + 1 to |members|
        invariant forall y | i < y < j :: members[i] != members[y]
      {
        if members[i] == members[j] {
          return true;
        }
      }
    }
    return false;
  }

  /** Whether `member` is among the first `count` entries of 32 bytes from `at`. */
  method IsListed(data: seq<u8>, at: nat, count: nat, member: Key) returns (listed: bool)
    requires at + 32 * count <= |data|
    ensures listed <==> exists i | 0 <= i < count :: Key(data[at + 32 * i..at + 32 * i + 32]) == member
  {
    for i := 0 to count
      invariant forall x | 0 <= x < i :: Key(data[at + 32 * x..at + 32 * x + 32]) != member
    {
      if Key(data[at + 32 * i..at + 32 * i + 32]) == member {
        return true;
      }
    }
    return false;
  }
}
