/** The shared data types of the application (types/index.ts). */
module Domain {

  /**
   * A transaction as the table and the query filter see it. JavaScript numbers
   * become reals; `type` stays a plain string because the import writes
   * "debit"/"credit" while the declared type says "income"/"expense".
   */
  datatype Transaction = Transaction(
    id: string,
    date: string,
    description: string,
    merchant: string,
    amount: real,
    txnType: string,
    category: string,
    account: string,
    statement: string,
    confidence: real)

  /**
   * A column mapping as `Object.entries` lists it: (source column, target
   * field) pairs, in order, so that "the first entry" is well defined.
   */
  type ColumnMapping = seq<(string, string)>
}
