/**
 * The saved column mappings per bank (app/api/import-mappings/route.ts): a
 * store keyed by the unique bank name, read by GET and upserted by POST.
 * The request's query string and JSON body arrive already decoded, as
 * optional fields.
 */
module ImportMappings {
  import opened Wrappers
  import opened Text
  import opened Domain

  /** The stored row: the bank it belongs to and its mapping JSON. */
  datatype MappingRecord = MappingRecord(bankName: string, mapping: ColumnMapping)

  /** The JSON reply: `{ data }` with status 200, or `{ error }` with status 400. */
  datatype Response = Ok(data: Option<MappingRecord>) | BadRequest(error: string)

  const BANK_NAME_REQUIRED := "bankName is required"
  const BANK_NAME_AND_MAPPING_REQUIRED := "bankName and mapping are required"

  class MappingStore {
    /** The `importMapping` table, unique on `bankName`. */
    var byBank: map<string, ColumnMapping>

    constructor ()
      ensures byBank == map[]
    {
      byBank := map[];
    }

    /** What `findUnique({ where: { bankName } })` returns. */
    function Find(bankName: string): (r: Option<MappingRecord>)
      reads this
      ensures r.Some? <==> bankName in byBank
      ensures r.Some? ==> r.value.bankName == bankName && r.value.mapping == byBank[bankName]
    {
      if bankName in byBank then Some(MappingRecord(bankName, byBank[bankName])) else None
    }

    /** GET: a missing or empty `bankName` is refused before the store is read;
        otherwise the stored record, or null when the bank has none. */
    method Get(bankName: Option<string>) returns (r: Response)
      ensures !Truthy(bankName) ==> r == BadRequest(BANK_NAME_REQUIRED)
      ensures Truthy(bankName) ==> r.Ok? && (r.data.Some? <==> bankName.value in byBank)
      ensures Truthy(bankName) && r.data.Some? ==> r.data.value == MappingRecord(bankName.value, byBank[bankName.value])
    {
      if !Truthy(bankName) {
        return BadRequest(BANK_NAME_REQUIRED);
      }
      r := Ok(Find(bankName.value));
    }

    /** POST: refuses a missing or empty `bankName` or a missing mapping and
        leaves the store alone; otherwise creates the bank's record or
        overwrites its mapping, touching no other bank. */
    method Post(bankName: Option<string>, mapping: Option<ColumnMapping>) returns (r: Response)
      modifies this
      ensures !Truthy(bankName) || mapping.None? ==>
                r == BadRequest(BANK_NAME_AND_MAPPING_REQUIRED) && byBank == old(byBank)
      ensures Truthy(bankName) && mapping.Some? ==>
                && byBank == old(byBank)[bankName.value := mapping.value]
                && r == Ok(Some(MappingRecord(bankName.value, mapping.value)))
    {
      if !Truthy(bankName) || mapping.None? {
        return BadRequest(BANK_NAME_AND_MAPPING_REQUIRED);
      }
      byBank := byBank[bankName.value := mapping.value];
      r := Ok(Some(MappingRecord(bankName.value, mapping.value)));
    }
  }

  /**
   * A client's view of the upsert: two POSTs for one bank leave one record
   * holding the second mapping, which GET then returns, while GET for any
   * other bank answers exactly as before.
   */
  method SaveTwiceThenRead(store: MappingStore, bank: string, first: ColumnMapping, second: ColumnMapping, other: string)
    returns (read: Response, otherBefore: Response, otherAfter: Response)
    requires bank != "" && other != bank
    modifies store
    ensures read == Ok(Some(MappingRecord(bank, second)))
    ensures otherAfter == otherBefore
    ensures store.byBank.Keys == old(store.byBank).Keys + {bank}
  {
    otherBefore := store.Get(Some(other));
    var saved := store.Post(Some(bank), Some(first));
    saved := store.Post(Some(bank), Some(second));
    read := store.Get(Some(bank));
    otherAfter := store.Get(Some(other));
  }
}
