/**
 * The persisted account record, its one-to-one mapping to the API value,
 * and the account repository with its id sequence (initial value 1000,
 * increment 1), kept in memory.
 */
module AccountPersistence {
  import opened Wrappers
  import opened AccountModel

  const SequenceInitialValue: nat := 1000
  const SequenceIncrement: nat := 1
  const AliasMaxLength: nat := 255

  /** The `account` table row. */
  datatype AccountJpa = AccountJpa(id: Long, alias: string, balance: Int)

  /** Why a save can fail. */
  datatype StoreError =
    | SequenceExhausted  // the sequence has no value left within `Long`
    | ValueTooLong       // the alias does not fit the 255-character column

  /** `AccountJpa.toAccount()`: a field-by-field copy. */
  function ToAccount(j: AccountJpa): (a: Account)
    ensures a.id == j.id && a.alias == j.alias && a.balance == j.balance
  {
    Account(j.id, j.alias, j.balance)
  }

  /** `Account.toAccountJpa()`: a field-by-field copy. */
  function ToAccountJpa(a: Account): (j: AccountJpa)
    ensures j.id == a.id && j.alias == a.alias && j.balance == a.balance
  {
    AccountJpa(a.id, a.alias, a.balance)
  }

  lemma ToAccountAfterToAccountJpa(a: Account)
    ensures ToAccount(ToAccountJpa(a)) == a
  {
  }

  lemma ToAccountJpaAfterToAccount(j: AccountJpa)
    ensures ToAccountJpa(ToAccount(j)) == j
  {
  }

  /** `findAll().map { it.toAccount() }`. */
  function ToAccounts(rows: seq<AccountJpa>): (accounts: seq<Account>)
    ensures |accounts| == |rows|
    ensures forall i :: 0 <= i < |rows| ==> ToAccountJpa(accounts[i]) == rows[i]
  {
    if rows == [] then [] else [ToAccount(rows[0])] + ToAccounts(rows[1..])
  }

  /** Mapping a table with one more row gives the old list with that row's account appended. */
  lemma ToAccountsAppend(rows: seq<AccountJpa>, row: AccountJpa)
    ensures ToAccounts(rows + [row]) == ToAccounts(rows) + [ToAccount(row)]
  {
  }

  /** The abstract state of the store: its rows in insertion order and the sequence's next value. */
  datatype Table = Table(rows: seq<AccountJpa>, nextId: nat)

  /** A freshly created schema: no rows, sequence at its initial value. */
  const EmptyTable: Table := Table([], SequenceInitialValue)

  /**
   * What every reachable store satisfies: each id was drawn from the
   * sequence, ids increase in insertion order, and no alias is longer than
   * the column.
   */
  predicate WellFormed(t: Table) {
    && SequenceInitialValue <= t.nextId
    && (forall i :: 0 <= i < |t.rows| ==>
          SequenceInitialValue <= t.rows[i].id < t.nextId && |t.rows[i].alias| <= AliasMaxLength)
    && (forall i, j :: 0 <= i < j < |t.rows| ==> t.rows[i].id < t.rows[j].id)
  }

  lemma EmptyTableIsWellFormed()
    ensures WellFormed(EmptyTable) && EmptyTable.rows == []
  {
  }

  /** The store after a save, and what the save returned. */
  datatype Saved = Saved(table: Table, result: Result<AccountJpa, StoreError>)

  /**
   * `repo.save` of a new entity (id 0): the sequence's next value becomes
   * its id and the row is appended. The value is drawn before the insert
   * runs, so an alias the column rejects still uses it up.
   */
  function Insert(t: Table, entity: AccountJpa): (s: Saved)
    requires entity.id == 0
    ensures s.result.Ok? <==> t.nextId <= MaxLong && |entity.alias| <= AliasMaxLength
    ensures s.result.Ok? ==>
              && s.result.value == entity.(id := t.nextId)
              && s.table.rows == t.rows + [s.result.value]
    ensures s.result.Err? ==> s.table.rows == t.rows
    ensures s.table.nextId == if t.nextId <= MaxLong then t.nextId + SequenceIncrement else t.nextId
  {
    if t.nextId > MaxLong then Saved(t, Err(SequenceExhausted))
    else
      var id: Long := t.nextId;
      var drawn := t.(nextId := t.nextId + SequenceIncrement);
      if |entity.alias| > AliasMaxLength then Saved(drawn, Err(ValueTooLong))
      else
        var row := entity.(id := id);
        Saved(drawn.(rows := t.rows + [row]), Ok(row))
  }

  lemma InsertPreservesWellFormed(t: Table, entity: AccountJpa)
    requires WellFormed(t) && entity.id == 0
    ensures WellFormed(Insert(t, entity).table)
  {
  }

  /** A saved id is new: no row already in the store carries it. */
  lemma InsertedIdIsFresh(t: Table, entity: AccountJpa)
    requires WellFormed(t) && entity.id == 0 && Insert(t, entity).result.Ok?
    ensures forall i :: 0 <= i < |t.rows| ==> t.rows[i].id != Insert(t, entity).result.value.id
  {
  }

  /** A save never alters a row already stored, and in particular not its id. */
  lemma InsertKeepsStoredRows(t: Table, entity: AccountJpa)
    requires entity.id == 0
    ensures |Insert(t, entity).table.rows| >= |t.rows|
    ensures forall i :: 0 <= i < |t.rows| ==> Insert(t, entity).table.rows[i] == t.rows[i]
  {
  }

  /** The first account saved into a fresh store gets id 1000. */
  lemma FirstIdIsInitialValue(entity: AccountJpa)
    requires entity.id == 0 && |entity.alias| <= AliasMaxLength
    ensures Insert(EmptyTable, entity).result == Ok(entity.(id := 1000))
  {
  }

  /** Two successive successful saves get consecutive ids. */
  lemma SuccessiveIdsIncrementByOne(t: Table, first: AccountJpa, second: AccountJpa)
    requires first.id == 0 && second.id == 0
    requires Insert(t, first).result.Ok?
    requires Insert(Insert(t, first).table, second).result.Ok?
    ensures Insert(Insert(t, first).table, second).result.value.id
         == Insert(t, first).result.value.id + SequenceIncrement
  {
  }

  /**
   * `AccountRepository`, kept in memory: the rows the database holds and
   * the database sequence that generates their ids.
   */
  class AccountRepository {
    var rows: seq<AccountJpa>
    var nextId: nat

    function State(): Table
      reads this
    {
      Table(rows, nextId)
    }

    ghost predicate Valid()
      reads this
    {
      WellFormed(State())
    }

    constructor ()
      ensures Valid() && State() == EmptyTable
    {
      rows := [];
      nextId := SequenceInitialValue;
    }

    /** `findAll()`: every row in insertion order, which is also increasing id order. */
    function FindAll(): (all: seq<AccountJpa>)
      requires Valid()
      reads this
      ensures forall i, j :: 0 <= i < j < |all| ==> all[i].id < all[j].id
      ensures forall i :: 0 <= i < |all| ==> |all[i].alias| <= AliasMaxLength
      ensures all == State().rows
    {
      rows
    }

    /** `save` of a new entity (id 0). */
    method Save(entity: AccountJpa) returns (result: Result<AccountJpa, StoreError>)
      requires Valid() && entity.id == 0
      modifies this
      ensures Valid()
      ensures Saved(State(), result) == Insert(old(State()), entity)
    {
      if nextId > MaxLong {
        return Err(SequenceExhausted);
      }
      var id: Long := nextId;
      nextId := nextId + SequenceIncrement;
      if |entity.alias| > AliasMaxLength {
        return Err(ValueTooLong);
      }
      var row := entity.(id := id);
      rows := rows + [row];
      result := Ok(row);
    }
  }
}
