/** `BankAccountManager`: the registry of linked bank connections, an
    insertion-ordered dictionary from account id to account record. */
module BankAccounts {
  import opened Wrappers
  import opened Strings
  import opened SheetNames

  /** One provider-reported sub-account; descriptive only. */
  datatype SubAccount = SubAccount(
    accountId: string, name: string, kind: Option<string>, subtype: Option<string>, mask: Option<string>)

  /** One registry record. `sheetName` is optional because the source reads it
      with `.get('sheet_name', ...)`: records loaded from disk may lack it. */
  datatype Account = Account(
    accessToken: string,
    accountName: string,
    institutionName: Option<string>,
    sheetName: Option<string>,
    subAccounts: seq<SubAccount>,
    createdAt: string,
    lastSync: Option<string>)

  /** What the provider's `accounts_get` and `item_get` report for a credential.
      The registry receives `None` in place of this when either call raises. */
  datatype ProviderItem = ProviderItem(institutionName: Option<string>, subAccounts: seq<SubAccount>)

  /** The pre-registry `_access_token.json`: missing, not parseable as JSON, or
      parsed, with its `access_token` entry if it has one. */
  datatype LegacyFile = Absent | Unreadable | Present(accessToken: Option<string>)

  const LegacyAccountName := "Legacy Bank Account"

  /** `acc.get('sheet_name', '')`. */
  function SheetOrEmpty(a: Account): string {
    if a.sheetName.Some? then a.sheetName.value else ""
  }

  /** `f"account_{n}_{stamp}"`, where `stamp` is the formatted clock reading. */
  function AccountId(n: nat, stamp: string): string {
    "account_" + NatToString(n) + "_" + stamp
  }

  /** The id `add_account` gives the next account: its number is one more
      than the number of stored accounts. */
  function NextId(s: Snapshot, stamp: string): string {
    AccountId(|s.accounts| + 1, stamp)
  }

  /** `account_name or f"Bank Account {count + 1}"`. */
  function DisplayName(accountName: Option<string>, count: nat): (r: string)
    ensures accountName.Some? && accountName.value != "" ==> r == accountName.value
    ensures accountName.None? || accountName.value == "" ==>
      StartsWith(r, "Bank Account ") && AllDigits(r[13..]) && DecimalValue(r[13..]) == count + 1
    ensures accountName.None? || accountName.value == "" ==> r == "Bank Account " + NatToString(count + 1)
  {
    if accountName.Some? && accountName.value != "" then accountName.value
    else
      var r := "Bank Account " + NatToString(count + 1);
      assert r[13..] == NatToString(count + 1);
      NatToStringReadsBack(count + 1);
      r
  }

  /** A copy of the registry as a value: `ids` lists the dictionary's keys in
      insertion order and `accounts` is the dictionary. The manager's
      mutators are specified as functions on it. */
  datatype Snapshot = Snapshot(ids: seq<string>, accounts: map<string, Account>)

  predicate Distinct(s: seq<string>) {
    forall i, j :: 0 <= i < j < |s| ==> s[i] != s[j]
  }

  /** Every key appears once in `ids`, and `ids` lists exactly the keys. */
  predicate WellFormed(s: Snapshot) {
    Distinct(s.ids) &&
    (forall id :: id in s.accounts ==> id in s.ids) &&
    (forall id :: id in s.ids ==> id in s.accounts)
  }

  /** `[acc.get('sheet_name', '') for acc in self.accounts.values()]`, as a set. */
  function SheetNamesOf(accounts: map<string, Account>): (names: set<string>)
    ensures forall id :: id in accounts ==> SheetOrEmpty(accounts[id]) in names
  {
    set id | id in accounts :: SheetOrEmpty(accounts[id])
  }

  /** No two accounts share a sheet name, a missing one counting as "". */
  ghost predicate DistinctSheetNames(accounts: map<string, Account>) {
    forall a, b :: a in accounts && b in accounts && a != b ==>
      SheetOrEmpty(accounts[a]) != SheetOrEmpty(accounts[b])
  }

  /** Storing a record whose sheet name no existing record has keeps the
      sheet names distinct, also when it replaces a record under the same id. */
  lemma InsertKeepsDistinct(accounts: map<string, Account>, id: string, data: Account)
    requires SheetOrEmpty(data) !in SheetNamesOf(accounts)
    ensures DistinctSheetNames(accounts) ==> DistinctSheetNames(accounts[id := data])
  {
    var after := accounts[id := data];
    forall a, b | a in after && b in after && a != b && DistinctSheetNames(accounts)
      ensures SheetOrEmpty(after[a]) != SheetOrEmpty(after[b])
    {
      if a == id {
        assert SheetOrEmpty(after[b]) in SheetNamesOf(accounts);
      } else if b == id {
        assert SheetOrEmpty(after[a]) in SheetNamesOf(accounts);
      }
    }
  }

  /** `ids` with `id` removed, the rest in order. */
  function Without(ids: seq<string>, id: string): (r: seq<string>)
    ensures forall x :: x in r <==> x in ids && x != id
    ensures Distinct(ids) ==> Distinct(r)
    ensures id !in ids ==> r == ids
  {
    if ids == [] then []
    else
      var rest := Without(ids[1..], id);
      assert Distinct(ids) ==> Distinct(ids[1..]) && ids[0] !in ids[1..];
      assert ids == [ids[0]] + ids[1..];
      (if ids[0] == id then [] else [ids[0]]) + rest
  }

  /** Removing the id at position `k` of a duplicate-free list splices it
      out and keeps the order of the others. */
  lemma {:induction false} WithoutSplice(ids: seq<string>, id: string, k: nat)
    requires Distinct(ids) && k < |ids| && ids[k] == id
    ensures Without(ids, id) == ids[..k] + ids[k + 1..]
  {
    var tail := ids[1..];
    assert Distinct(tail) && ids[0] !in tail;
    if k == 0 {
      assert ids[k + 1..] == tail;
    } else {
      assert tail[k - 1] == id;
      WithoutSplice(tail, id, k - 1);
      assert ids[..k] == [ids[0]] + tail[..k - 1];
      assert ids[k + 1..] == tail[k..];
    }
  }

  /** The record `add_account` builds (lines 67-78 of the source) once the
      provider calls have returned `item`. */
  function NewRecord(s: Snapshot, accessToken: string, accountName: Option<string>, item: ProviderItem,
                     now: string): (a: Account)
    requires BaseName(item.institutionName, accountName).Some?
    ensures a.sheetName.Some? && a.sheetName.value !in SheetNamesOf(s.accounts)
    ensures BaseName(item.institutionName, accountName).value !in SheetNamesOf(s.accounts) &&
      CleanName(BaseName(item.institutionName, accountName).value) == BaseName(item.institutionName, accountName).value
      ==> a.sheetName.value == BaseName(item.institutionName, accountName).value
    ensures a.lastSync == None && a.createdAt == now && a.accessToken == accessToken
    ensures a.institutionName == item.institutionName && a.subAccounts == item.subAccounts
    ensures accountName.Some? && accountName.value != "" ==> a.accountName == accountName.value
    ensures accountName.None? || accountName.value == "" ==>
      a.accountName == "Bank Account " + NatToString(|s.accounts| + 1)
  {
    var sheet := UniqueName(CleanName(BaseName(item.institutionName, accountName).value), SheetNamesOf(s.accounts));
    Account(accessToken, DisplayName(accountName, |s.accounts|), item.institutionName,
            Some(sheet), item.subAccounts, now, None)
  }

  lemma WithoutSplices(ids: seq<string>, id: string)
    requires Distinct(ids)
    ensures forall k :: 0 <= k < |ids| && ids[k] == id ==> Without(ids, id) == ids[..k] + ids[k + 1..]
  {
    forall k | 0 <= k < |ids| && ids[k] == id
      ensures Without(ids, id) == ids[..k] + ids[k + 1..]
    {
      WithoutSplice(ids, id, k);
    }
  }

  /** The record `add_account` assembles from the generated sheet name is
      `NewRecord`. */
  lemma BuiltRecordIsNew(s: Snapshot, accessToken: string, accountName: Option<string>, item: ProviderItem,
                         now: string, sheetName: Option<string>, data: Account)
    requires BaseName(item.institutionName, accountName).Some?
    requires sheetName == Some(UniqueName(CleanName(BaseName(item.institutionName, accountName).value),
                                          SheetNamesOf(s.accounts)))
    requires data == Account(accessToken, DisplayName(accountName, |s.accounts|), item.institutionName,
                             sheetName, item.subAccounts, now, None)
    ensures data == NewRecord(s, accessToken, accountName, item, now)
  {
  }

  /** The registry after `add_account` stored a record: the new record goes
      under the next id, last in order when the id is new, and no other
      record changes. */
  function Register(s: Snapshot, accessToken: string, accountName: Option<string>, item: ProviderItem,
                    stamp: string, now: string): (r: Snapshot)
    requires WellFormed(s)
    requires BaseName(item.institutionName, accountName).Some?
    ensures WellFormed(r)
    ensures r.accounts.Keys == s.accounts.Keys + {NextId(s, stamp)}
    ensures forall other :: other in s.accounts && other != NextId(s, stamp) ==>
      r.accounts[other] == s.accounts[other]
    ensures r.ids == if NextId(s, stamp) in s.accounts then s.ids else s.ids + [NextId(s, stamp)]
    ensures r.accounts[NextId(s, stamp)] == NewRecord(s, accessToken, accountName, item, now)
  {
    var id, data := NextId(s, stamp), NewRecord(s, accessToken, accountName, item, now);
    StoreKeepsWellFormed(s, id, data);
    Store(s, id, data)
  }

  /** `register` stores the record it builds under the next id. */
  lemma RegisterIsStore(s: Snapshot, accessToken: string, accountName: Option<string>, item: ProviderItem,
                        stamp: string, now: string, data: Account, after: Snapshot)
    requires WellFormed(s)
    requires BaseName(item.institutionName, accountName).Some?
    requires data == NewRecord(s, accessToken, accountName, item, now)
    requires after == Store(s, NextId(s, stamp), data)
    ensures WellFormed(after)
    ensures after == Register(s, accessToken, accountName, item, stamp, now)
  {
    StoreKeepsWellFormed(s, NextId(s, stamp), data);
  }

  /** Adding an account keeps the sheet names of the registry pairwise
      distinct. */
  lemma RegisterKeepsSheetNamesDistinct(s: Snapshot, accessToken: string, accountName: Option<string>,
                                        item: ProviderItem, stamp: string, now: string)
    requires WellFormed(s) && DistinctSheetNames(s.accounts)
    requires BaseName(item.institutionName, accountName).Some?
    ensures DistinctSheetNames(Register(s, accessToken, accountName, item, stamp, now).accounts)
  {
    InsertKeepsDistinct(s.accounts, NextId(s, stamp), NewRecord(s, accessToken, accountName, item, now));
  }

  /** `accounts[id] = data` on a Python dict: a new key goes last, an existing
      key keeps its place. */
  function Store(s: Snapshot, id: string, data: Account): Snapshot {
    Snapshot(if id in s.accounts then s.ids else s.ids + [id], s.accounts[id := data])
  }

  lemma StoreKeepsWellFormed(s: Snapshot, id: string, data: Account)
    requires WellFormed(s)
    ensures WellFormed(Store(s, id, data))
    ensures Store(s, id, data).accounts.Keys == s.accounts.Keys + {id}
    ensures forall other :: other in s.accounts && other != id ==>
      Store(s, id, data).accounts[other] == s.accounts[other]
    ensures Store(s, id, data).accounts[id] == data
  {
    if id !in s.accounts {
      var ids := s.ids + [id];
      forall i, j | 0 <= i < j < |ids|
        ensures ids[i] != ids[j]
      {
        if j == |ids| - 1 {
          assert ids[i] == s.ids[i];
        }
      }
    }
  }

  /** The registry after `remove_account(id)`. */
  function Unregister(s: Snapshot, id: string): (r: Snapshot)
    requires WellFormed(s)
    ensures WellFormed(r)
    ensures r.accounts.Keys == s.accounts.Keys - {id}
    ensures forall other :: other in r.accounts ==> r.accounts[other] == s.accounts[other]
    ensures forall x :: x in r.ids <==> x in s.ids && x != id
    ensures forall k :: 0 <= k < |s.ids| && s.ids[k] == id ==> r.ids == s.ids[..k] + s.ids[k + 1..]
    ensures id !in s.accounts ==> r == s
    ensures DistinctSheetNames(s.accounts) ==> DistinctSheetNames(r.accounts)
  {
    if id in s.accounts then
      WithoutSplices(s.ids, id);
      Snapshot(Without(s.ids, id), s.accounts - {id})
    else s
  }

  /** The registry after `update_last_sync(id)` at clock reading `now`. */
  function Touch(s: Snapshot, id: string, now: string): (r: Snapshot)
    requires WellFormed(s)
    ensures WellFormed(r)
    ensures r.ids == s.ids && r.accounts.Keys == s.accounts.Keys
    ensures forall other :: other in s.accounts && other != id ==> r.accounts[other] == s.accounts[other]
    ensures id in s.accounts ==> r.accounts[id] == s.accounts[id].(lastSync := Some(now))
    ensures id !in s.accounts ==> r == s
    ensures DistinctSheetNames(s.accounts) ==> DistinctSheetNames(r.accounts)
  {
    if id in s.accounts then Snapshot(s.ids, s.accounts[id := s.accounts[id].(lastSync := Some(now))])
    else s
  }

  /** `get_all_access_tokens`: one (id, token, name) triple per account, in
      key order. */
  function TokenTriples(ids: seq<string>, accounts: map<string, Account>): (r: seq<(string, string, string)>)
    requires forall id :: id in ids ==> id in accounts
    ensures |r| == |ids|
    ensures forall i :: 0 <= i < |ids| ==>
      r[i] == (ids[i], accounts[ids[i]].accessToken, accounts[ids[i]].accountName)
  {
    if ids == [] then []
    else
      var id := ids[0];
      [(id, accounts[id].accessToken, accounts[id].accountName)] + TokenTriples(ids[1..], accounts)
  }

  /** `list_accounts`' return value: the records in key order. */
  function Records(ids: seq<string>, accounts: map<string, Account>): (r: seq<Account>)
    requires forall id :: id in ids ==> id in accounts
    ensures |r| == |ids|
    ensures forall i :: 0 <= i < |ids| ==> r[i] == accounts[ids[i]]
  {
    if ids == [] then [] else [accounts[ids[0]]] + Records(ids[1..], accounts)
  }

  /** A well-formed registry has no key in its order exactly when it has no
      record. */
  lemma NoKeysIffEmpty(s: Snapshot)
    requires WellFormed(s)
    ensures s.ids == [] <==> s.accounts == map[]
  {
    if s.ids != [] {
      assert s.ids[0] in s.accounts;
    }
    if s.accounts != map[] {
      var k :| k in s.accounts;
      assert k in s.ids;
    }
  }

  class BankAccountManager {
    /** The dictionary's keys in insertion order. */
    var ids: seq<string>
    var accounts: map<string, Account>

    function Current(): Snapshot
      reads this
    {
      Snapshot(ids, accounts)
    }

    ghost predicate Valid()
      reads this
    {
      WellFormed(Current())
    }

    /** The manager over the records `_load_accounts` read, in file order. */
    constructor (loaded: Snapshot)
      requires WellFormed(loaded)
      ensures Valid() && Current() == loaded
    {
      ids := loaded.ids;
      accounts := loaded.accounts;
    }

    /** `_generate_sheet_name`. `None` stands for the TypeError raised when
        both names are missing. */
    method GenerateSheetName(institutionName: Option<string>, accountName: Option<string>)
      returns (name: Option<string>)
      ensures name.Some? <==> BaseName(institutionName, accountName).Some?
      ensures name.Some? ==>
        name.value == UniqueName(CleanName(BaseName(institutionName, accountName).value), SheetNamesOf(accounts))
    {
      var base := BaseName(institutionName, accountName);
      if base.None? {
        return None;
      }
      var clean := CleanName(base.value);
      var existing := SheetNamesOf(accounts);
      if clean in existing {
        var counter := 1;
        var original := clean;
        while clean in existing
          invariant 1 <= counter
          invariant clean == Probe(original, counter - 1)
          invariant forall j :: 0 <= j < counter - 1 ==> Probe(original, j) in existing
          decreases |existing| - counter
        {
          ProbesBound(original, existing, counter);
          clean := original + " " + NatToString(counter);
          counter := counter + 1;
        }
        LeastFreeFrom(original, existing, counter - 1);
      }
      return Some(clean);
    }

    /** `add_account`. `provider` is what the provider reported (None when it
        raised); `stamp` and `now` are the clock readings used for the id and
        for `created_at`. */
    method AddAccount(accessToken: string, accountName: Option<string>, provider: Option<ProviderItem>,
                      stamp: string, now: string)
      returns (ok: bool)
      requires Valid()
      modifies this
      ensures Valid()
      ensures ok <==> provider.Some? && BaseName(provider.value.institutionName, accountName).Some?
      ensures Current() == if ok then Register(old(Current()), accessToken, accountName, provider.value, stamp, now)
                           else old(Current())
    {
      if provider.None? {
        return false;
      }
      var before := Current();
      var accountId := NextId(before, stamp);
      var sheetName := GenerateSheetName(provider.value.institutionName, accountName);
      if sheetName.None? {
        return false;
      }
      var data := Account(accessToken, DisplayName(accountName, |accounts|), provider.value.institutionName,
                          sheetName, provider.value.subAccounts, now, None);
      BuiltRecordIsNew(before, accessToken, accountName, provider.value, now, sheetName, data);
      var next := Store(before, accountId, data);
      RegisterIsStore(before, accessToken, accountName, provider.value, stamp, now, data, next);
      ids, accounts := next.ids, next.accounts;
      return true;
    }

    /** `remove_account`. */
    method RemoveAccount(id: string) returns (removed: bool)
      requires Valid()
      modifies this
      ensures Valid()
      ensures removed == (id in old(accounts))
      ensures Current() == Unregister(old(Current()), id)
      ensures AccessToken(id) == None
    {
      removed := id in accounts;
      if removed {
        ids, accounts := Without(ids, id), accounts - {id};
      }
    }

    /** `update_last_sync`: `now` is the clock reading. */
    method UpdateLastSync(id: string, now: string)
      requires Valid()
      modifies this
      ensures Valid()
      ensures Current() == Touch(old(Current()), id, now)
    {
      if id in accounts {
        accounts := accounts[id := accounts[id].(lastSync := Some(now))];
      }
    }

    /** `get_account_access_token`. */
    function AccessToken(id: string): (token: Option<string>)
      reads this
      ensures token.Some? <==> id in accounts
      ensures token.Some? ==> token.value == accounts[id].accessToken
    {
      if id in accounts then Some(accounts[id].accessToken) else None
    }

    /** `get_all_access_tokens`. */
    function AllAccessTokens(): (triples: seq<(string, string, string)>)
      reads this
      requires Valid()
      ensures |triples| == |ids|
      ensures forall i :: 0 <= i < |ids| ==>
        triples[i] == (ids[i], accounts[ids[i]].accessToken, accounts[ids[i]].accountName)
    {
      TokenTriples(ids, accounts)
    }

    /** `list_accounts` without its printing: every record, in key order, and
        `[]` for an empty registry. */
    function ListAccounts(): (records: seq<Account>)
      reads this
      requires Valid()
      ensures records == [] <==> accounts == map[]
      ensures |records| == |ids|
      ensures forall i :: 0 <= i < |ids| ==> records[i] == accounts[ids[i]]
    {
      NoKeysIffEmpty(Current());
      Records(ids, accounts)
    }

    /** `get_account_info`. */
    function AccountInfo(id: string): (info: Option<Account>)
      reads this
      ensures info.Some? <==> id in accounts
      ensures info.Some? ==> info.value == accounts[id]
    {
      if id in accounts then Some(accounts[id]) else None
    }

    /** `migrate_legacy_token`. `renameOk` says whether renaming the legacy
        file to its backup name succeeds; the new state of the legacy file is
        returned. */
    method MigrateLegacyToken(legacy: LegacyFile, provider: Option<ProviderItem>, stamp: string, now: string,
                              renameOk: bool)
      returns (ok: bool, legacyAfter: LegacyFile)
      requires Valid()
      modifies this
      ensures Valid()
      ensures ok <==> HasLegacyToken(legacy) && provider.Some? && renameOk
      ensures legacyAfter == if ok then Absent else legacy
      ensures Current() == if HasLegacyToken(legacy) && provider.Some?
                           then Register(old(Current()), legacy.accessToken.value, Some(LegacyAccountName),
                                         provider.value, stamp, now)
                           else old(Current())
    {
      if legacy.Absent? || legacy.Unreadable? {
        return false, legacy;
      }
      var accessToken := legacy.accessToken;
      if accessToken.None? || accessToken.value == "" {
        return false, legacy;
      }
      var success := AddAccount(accessToken.value, Some(LegacyAccountName), provider, stamp, now);
      if success {
        if renameOk {
          return true, Absent;
        }
      }
      return false, legacy;
    }

    /** Migration is single-shot: after a successful call the legacy file is
        gone, so a second call reports failure and changes nothing. */
    method MigrateTwice(legacy: LegacyFile, provider: Option<ProviderItem>, stamp1: string, stamp2: string,
                        now: string)
      returns (first: bool, second: bool)
      requires Valid()
      modifies this
      ensures Valid()
      ensures first ==> !second
      ensures first ==> HasLegacyToken(legacy) && provider.Some? && Current() == Register(old(Current()), legacy.accessToken.value, Some(LegacyAccountName),
                                              provider.value, stamp1, now)
    {
      var after;
      first, after := MigrateLegacyToken(legacy, provider, stamp1, now, true);
      second, after := MigrateLegacyToken(after, provider, stamp2, now, true);
    }
  }

  /** The legacy file parsed and holds a non-empty `access_token`. */
  predicate HasLegacyToken(legacy: LegacyFile) {
    legacy.Present? && legacy.accessToken.Some? && legacy.accessToken.value != ""
  }

  /** A search that starts at the least free counter finds it at once. */
  lemma LeastFreeFrom(original: string, taken: set<string>, from: nat)
    requires forall j :: 0 <= j < from ==> Probe(original, j) in taken
    requires Probe(original, from) !in taken
    ensures LeastFree(original, taken, 0) == from
  {
  }
}
