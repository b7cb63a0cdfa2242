/** The shapes the services exchange (functions/src/types.ts, src/types/offer.ts)
    and the outcomes of the Airtable REST calls, which the model receives as
    given values instead of performing them. */
module ApiTypes {

  import opened JsValues

  /** `{ data?: T, error?: string, status: number }` */
  datatype ApiResponse<+T> = ApiResponse(data: Option<T>, error: Option<string>, status: int)

  function ErrorResponse<T>(message: string, status: int): ApiResponse<T> {
    ApiResponse(None, Some(message), status)
  }

  function DataResponse<T>(data: T, status: int): ApiResponse<T> {
    ApiResponse(Some(data), None, status)
  }

  /** `response.error || !response.data`: how every caller recognises a failed read. */
  predicate Failed<T>(r: ApiResponse<T>) {
    PresentText(r.error) || r.data.None?
  }

  /** The Airtable base id and API key, either of which may be unset;
      `validateConfig` demands both to be non-empty. */
  datatype Config = Config(baseId: Option<string>, apiKey: Option<string>)

  predicate ConfigValid(c: Config) {
    PresentText(c.baseId) && PresentText(c.apiKey)
  }

  /** An Airtable record. A missing `fields` object reads as `{}`, so it is the
      empty map here; the id is optional. */
  datatype AirtableRecord = AirtableRecord(id: Option<string>, fields: map<string, Value>)

  /** The outcome of a GET on the table: the records of a successful
      response (a missing `records` array reads as empty), the status of a
      response that was not ok, or an exception from `fetch`. */
  datatype ListResponse =
    | ListOk(records: seq<AirtableRecord>)
    | ListFailed(status: int)
    | ListThrew(message: string)

  /** The outcome of a PATCH or POST of one record: the record returned, the
      status and body text of a response that was not ok, or an exception. */
  datatype RecordResponse =
    | RecordOk(record: AirtableRecord)
    | RecordFailed(status: int, text: string)
    | RecordThrew(message: string)
}
