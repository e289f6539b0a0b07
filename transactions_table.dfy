/**
 * The editable transactions table (components/transactions/TransactionsTable.tsx),
 * reduced to its state: the rows being edited, the list of account names
 * offered, and the "new account" dialog. Each React state hook is a field;
 * each callback is a method. State setters are applied in the order the
 * callback calls them, which agrees with React here because every value the
 * callback reads is taken before any setter runs.
 */
module TransactionsTable {
  import opened Wrappers
  import opened Text
  import opened Seqs
  import opened Domain

  /** `Partial<Transaction>`: the fields to overwrite, each optional. */
  datatype Patch = Patch(
    id: Option<string>,
    date: Option<string>,
    description: Option<string>,
    merchant: Option<string>,
    amount: Option<real>,
    txnType: Option<string>,
    category: Option<string>,
    account: Option<string>,
    statement: Option<string>,
    confidence: Option<real>)

  /** A patch that sets only the account, as the account picker sends it. */
  function AccountPatch(name: string): Patch {
    Patch(None, None, None, None, None, None, None, Some(name), None, None)
  }

  /** `{ ...item, ...patch }`: every field the patch carries replaces the row's. */
  function Apply(t: Transaction, p: Patch): (r: Transaction)
    ensures r.id == p.id.GetOr(t.id) && r.date == p.date.GetOr(t.date)
    ensures r.description == p.description.GetOr(t.description) && r.merchant == p.merchant.GetOr(t.merchant)
    ensures r.amount == p.amount.GetOr(t.amount) && r.txnType == p.txnType.GetOr(t.txnType)
    ensures r.category == p.category.GetOr(t.category) && r.account == p.account.GetOr(t.account)
    ensures r.statement == p.statement.GetOr(t.statement) && r.confidence == p.confidence.GetOr(t.confidence)
  {
    Transaction(p.id.GetOr(t.id), p.date.GetOr(t.date), p.description.GetOr(t.description),
                p.merchant.GetOr(t.merchant), p.amount.GetOr(t.amount), p.txnType.GetOr(t.txnType),
                p.category.GetOr(t.category), p.account.GetOr(t.account), p.statement.GetOr(t.statement),
                p.confidence.GetOr(t.confidence))
  }

  /** `prev.map((item) => (item.id === id ? { ...item, ...patch } : item))` */
  function UpdateRows(rows: seq<Transaction>, id: string, patch: Patch): (r: seq<Transaction>)
    ensures |r| == |rows|
    ensures forall i :: 0 <= i < |rows| && rows[i].id != id ==> r[i] == rows[i]
    ensures forall i :: 0 <= i < |rows| && rows[i].id == id ==> r[i] == Apply(rows[i], patch)
  {
    seq(|rows|, i requires 0 <= i < |rows| => if rows[i].id == id then Apply(rows[i], patch) else rows[i])
  }

  /** Applying the same patch twice is applying it once, unless the patch
      itself moves the row to another id. */
  lemma UpdateRowsIdempotent(rows: seq<Transaction>, id: string, patch: Patch)
    requires patch.id.None? || patch.id == Some(id)
    ensures UpdateRows(UpdateRows(rows, id, patch), id, patch) == UpdateRows(rows, id, patch)
  {
    var once := UpdateRows(rows, id, patch);
    var twice := UpdateRows(once, id, patch);
    forall i | 0 <= i < |rows|
      ensures twice[i] == once[i]
    {
      if rows[i].id == id {
        assert once[i].id == id;
      }
    }
  }

  /** Patching a row that no row carries changes nothing. */
  lemma UpdateUnknownIdIsNoOp(rows: seq<Transaction>, id: string, patch: Patch)
    requires forall i :: 0 <= i < |rows| ==> rows[i].id != id
    ensures UpdateRows(rows, id, patch) == rows
  {
  }

  const FALLBACK_ACCOUNTS: seq<string> := ["Checking", "Savings", "Credit Card"]

  /** `data.map((item) => item.account)` */
  function Accounts(data: seq<Transaction>): (r: seq<string>)
    ensures |r| == |data| && forall i :: 0 <= i < |data| ==> r[i] == data[i].account
  {
    seq(|data|, i requires 0 <= i < |data| => data[i].account)
  }

  /** Some row names a (non-empty) account. */
  predicate NamesAnAccount(data: seq<Transaction>) {
    exists a :: a in Accounts(data) && a != ""
  }

  /** The initial `accounts` state: the distinct non-empty account names of
      the data, or three fixed names when there are none. */
  function InitialAccounts(data: seq<Transaction>): (r: seq<string>)
    ensures Distinct(r) && r != [] && "" !in r
    ensures NamesAnAccount(data) ==> forall a :: a in r <==> a != "" && a in Accounts(data)
    ensures !NamesAnAccount(data) ==> r == FALLBACK_ACCOUNTS
  {
    var unique := RemoveAll(Dedup(Accounts(data)), "");
    RemoveAllKeepsDistinct(Dedup(Accounts(data)), "");
    assert NamesAnAccount(data) <==> |unique| > 0 by {
      if |unique| > 0 {
        assert unique[0] in unique;
      }
    }
    if |unique| > 0 then unique else FALLBACK_ACCOUNTS
  }

  /** The names found in the data are listed in the order they first appear. */
  lemma InitialAccountsInDataOrder(data: seq<Transaction>)
    requires NamesAnAccount(data)
    ensures InFirstOccurrenceOrder(InitialAccounts(data), Accounts(data))
  {
    var accounts := Accounts(data);
    var a :| a in accounts && a != "";
    assert a in RemoveAll(Dedup(accounts), "");
    DedupInFirstOccurrenceOrder(accounts);
    RemoveAllKeepsFirstOccurrenceOrder(Dedup(accounts), "", accounts);
  }

  /** `prev.includes(name) ? prev : [...prev, name]` */
  function AddAccount(accounts: seq<string>, name: string): (r: seq<string>)
    ensures accounts <= r && name in r
    ensures forall a :: a in r <==> a in accounts || a == name
    ensures name in accounts ==> r == accounts
    ensures Distinct(accounts) ==> Distinct(r)
  {
    if name in accounts then accounts else accounts + [name]
  }

  class TableState {
    var rows: seq<Transaction>
    var accounts: seq<string>
    var isAccountDialogOpen: bool
    var newAccountName: string
    var activeAccountRowId: Option<string>

    /** The account list never repeats a name and never holds the empty name. */
    ghost predicate Valid()
      reads this
    {
      Distinct(accounts) && accounts != [] && "" !in accounts
    }

    /** The initial state of the hooks for the table's `data`. */
    constructor (data: seq<Transaction>)
      ensures Valid()
      ensures rows == data && accounts == InitialAccounts(data)
      ensures !isAccountDialogOpen && newAccountName == "" && activeAccountRowId == None
    {
      rows := data;
      accounts := InitialAccounts(data);
      isAccountDialogOpen := false;
      newAccountName := "";
      activeAccountRowId := None;
    }

    /** `updateRow(id, patch)` */
    method UpdateRow(id: string, patch: Patch)
      modifies this
      ensures rows == UpdateRows(old(rows), id, patch)
      ensures accounts == old(accounts) && isAccountDialogOpen == old(isAccountDialogOpen)
      ensures newAccountName == old(newAccountName) && activeAccountRowId == old(activeAccountRowId)
    {
      rows := UpdateRows(rows, id, patch);
    }

    /** `openCreateAccountDialog(rowId)`: remember the row, clear the name, open the dialog. */
    method OpenCreateAccountDialog(rowId: string)
      modifies this
      ensures activeAccountRowId == Some(rowId) && newAccountName == "" && isAccountDialogOpen
      ensures rows == old(rows) && accounts == old(accounts)
    {
      activeAccountRowId := Some(rowId);
      newAccountName := "";
      isAccountDialogOpen := true;
    }

    /** `handleDialogOpenChange(open)`: closing also forgets the name and the row. */
    method HandleDialogOpenChange(open: bool)
      modifies this
      ensures isAccountDialogOpen == open
      ensures !open ==> newAccountName == "" && activeAccountRowId == None
      ensures open ==> newAccountName == old(newAccountName) && activeAccountRowId == old(activeAccountRowId)
      ensures rows == old(rows) && accounts == old(accounts)
    {
      isAccountDialogOpen := open;
      if !open {
        newAccountName := "";
        activeAccountRowId := None;
      }
    }

    /** The name field's `onChange`. */
    method SetNewAccountName(name: string)
      modifies this
      ensures newAccountName == name
      ensures rows == old(rows) && accounts == old(accounts)
      ensures isAccountDialogOpen == old(isAccountDialogOpen) && activeAccountRowId == old(activeAccountRowId)
    {
      newAccountName := name;
    }

    /**
     * `handleSaveAccount`: a blank name changes nothing; otherwise the trimmed
     * name joins the account list unless already there, becomes the account
     * of the active row when there is one, and the dialog closes.
     */
    method HandleSaveAccount()
      requires Valid()
      modifies this
      ensures Valid()
      ensures Trim(old(newAccountName)) == [] ==>
                && rows == old(rows) && accounts == old(accounts)
                && isAccountDialogOpen == old(isAccountDialogOpen)
                && newAccountName == old(newAccountName) && activeAccountRowId == old(activeAccountRowId)
      ensures Trim(old(newAccountName)) != [] ==>
                var name := Trim(old(newAccountName));
                && accounts == AddAccount(old(accounts), name)
                && rows == (if Truthy(old(activeAccountRowId))
                            then UpdateRows(old(rows), old(activeAccountRowId).value, AccountPatch(name))
                            else old(rows))
                && !isAccountDialogOpen && newAccountName == "" && activeAccountRowId == None
    {
      var trimmedName := Trim(newAccountName);
      if trimmedName == [] {
        return;
      }
      accounts := AddAccount(accounts, trimmedName);
      if Truthy(activeAccountRowId) {
        UpdateRow(activeAccountRowId.value, AccountPatch(trimmedName));
      }
      HandleDialogOpenChange(false);
    }
  }

  /**
   * The whole dialog flow on one row: open it for `rowId`, type a name with
   * surrounding blanks, save. The row with that id now carries the trimmed
   * name, which the account list holds exactly once, and the dialog is closed.
   */
  method CreateAccountForRow(table: TableState, rowId: string, typed: string)
    requires table.Valid() && rowId != "" && Trim(typed) != []
    modifies table
    ensures table.Valid() && !table.isAccountDialogOpen
    ensures |table.rows| == |old(table.rows)|
    ensures forall i :: 0 <= i < |table.rows| && old(table.rows)[i].id == rowId ==>
              table.rows[i].account == Trim(typed)
    ensures forall i :: 0 <= i < |table.rows| && old(table.rows)[i].id != rowId ==>
              table.rows[i] == old(table.rows)[i]
    ensures Trim(typed) in table.accounts && old(table.accounts) <= table.accounts
  {
    table.OpenCreateAccountDialog(rowId);
    table.SetNewAccountName(typed);
    table.HandleSaveAccount();
  }
}
