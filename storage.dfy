/** The server's storage layer over the hosted database: how each query's
    `{ data, error }` reply becomes a value or a thrown error, how a
    publication is renamed to the table's column names on insert and update
    and projected back, and the settings table's upsert by key. */
module Storage {
  import opened Wrappers
  import opened Schema
  import Auth

  /** PostgREST's code for a `.single()` query that matched no row. */
  const NotFoundCode: string := "PGRST116"
  const NoRowsMessage: string := "JSON object requested, multiple (or no) rows returned"

  datatype QueryError = QueryError(code: string, message: string)

  /** The reply of a `.single()` query: the one row, or an error. */
  datatype Reply<T> = Data(row: T) | Error(error: QueryError)

  /** The reply of a list query: its data, which may be null, or an error. */
  datatype ListReply<T> = Rows(data: Option<seq<T>>) | ListError(error: QueryError)

  // ---------------------------------------------------------------------------
  // Replies
  // ---------------------------------------------------------------------------

  /** `getPublication` and `getSetting`: a not-found error means null, any other
      error is thrown with its message, and a row is returned as it is. */
  function SingleOrNull<T>(reply: Reply<T>): (r: Result<Option<T>, string>)
    ensures r == Success(None) <==> reply.Error? && reply.error.code == NotFoundCode
    ensures r.Failure? <==> reply.Error? && reply.error.code != NotFoundCode
    ensures r.Failure? ==> r.error == reply.error.message
    ensures r.Success? && r.value.Some? <==> reply.Data?
    ensures reply.Data? ==> r.value.value == reply.row
  {
    match reply
    case Data(row) => Success(Some(row))
    case Error(e) => if e.code == NotFoundCode then Success(None) else Failure(e.message)
  }

  /** The writes' `if (error) throw`: every error is thrown, not-found included. */
  function SingleOrThrow<T>(reply: Reply<T>): (r: Result<T, string>)
    ensures r.Success? <==> reply.Data?
    ensures r.Success? ==> r.value == reply.row
    ensures r.Failure? ==> r.error == reply.error.message
  {
    match reply
    case Data(row) => Success(row)
    case Error(e) => Failure(e.message)
  }

  /** `getAllPublications` and `getAllSettings`: an error is thrown, null data is
      the empty list, and rows come back in the order of the reply. */
  function ListOrEmpty<T>(reply: ListReply<T>): (r: Result<seq<T>, string>)
    ensures r.Failure? <==> reply.ListError?
    ensures r.Failure? ==> r.error == reply.error.message
    ensures reply.Rows? && reply.data.None? ==> r == Success([])
    ensures reply.Rows? && reply.data.Some? ==> r == Success(reply.data.value)
  {
    match reply
    case Rows(data) => Success(if data.Some? then data.value else [])
    case ListError(e) => Failure(e.message)
  }

  // ---------------------------------------------------------------------------
  // Columns of the publications table
  // ---------------------------------------------------------------------------

  /** A row as the table names its columns. */
  datatype PublicationRow = PublicationRow(
    id: string, title: string, description: string,
    image_url: string, monthly_price: string, created_at: string)

  /** The writable columns, and a record of values for some of them. */
  const Columns: set<string> := {"title", "description", "image_url", "monthly_price"}

  type Record = map<string, string>

  /** The insert object: the four fields under their column names, so exactly
      the writable columns and never an `id`. */
  function InsertRecord(data: InsertPublication): (record: Record)
    ensures record.Keys == Columns && "id" !in record
    ensures record["image_url"] == data.imageUrl && record["monthly_price"] == data.monthlyPrice
  {
    map["title" := data.title, "description" := data.description,
        "image_url" := data.imageUrl, "monthly_price" := data.monthlyPrice]
  }

  /** Which field of an update body a column takes its value from. The body's
      `id` feeds no column. */
  function FieldOf(data: UpdatePublication, column: string): Option<string>
  {
    if column == "title" then data.title
    else if column == "description" then data.description
    else if column == "image_url" then data.imageUrl
    else if column == "monthly_price" then data.monthlyPrice
    else None
  }

  /** The update object, declaratively: one entry per column whose field is
      defined; an update defining no field writes nothing. */
  function UpdateRecord(data: UpdatePublication): (record: Record)
    ensures record.Keys <= Columns && "id" !in record
    ensures data.title.None? && data.description.None? && data.imageUrl.None? && data.monthlyPrice.None?
            ==> record == map[]
  {
    map c | c in Columns && FieldOf(data, c).Some? :: FieldOf(data, c).value
  }

  /** `updates` is built by four conditional assignments, one per field. */
  method BuildUpdates(data: UpdatePublication) returns (updates: Record)
    ensures updates == UpdateRecord(data)
  {
    updates := map[];
    if data.title.Some? { updates := updates["title" := data.title.value]; }
    if data.description.Some? { updates := updates["description" := data.description.value]; }
    if data.imageUrl.Some? { updates := updates["image_url" := data.imageUrl.value]; }
    if data.monthlyPrice.Some? { updates := updates["monthly_price" := data.monthlyPrice.value]; }
    assert updates.Keys == UpdateRecord(data).Keys;
  }

  /** The update object has a column exactly when its field is defined, under
      the renamed key, and never an `id`. */
  lemma UpdateRecordKeys(data: UpdatePublication)
    ensures var u := UpdateRecord(data);
            && ("title" in u <==> data.title.Some?)
            && ("description" in u <==> data.description.Some?)
            && ("image_url" in u <==> data.imageUrl.Some?)
            && ("monthly_price" in u <==> data.monthlyPrice.Some?)
            && u.Keys <= Columns && "id" !in u && "imageUrl" !in u && "monthlyPrice" !in u
    ensures var u := UpdateRecord(data);
            && (data.title.Some? ==> u["title"] == data.title.value)
            && (data.description.Some? ==> u["description"] == data.description.value)
            && (data.imageUrl.Some? ==> u["image_url"] == data.imageUrl.value)
            && (data.monthlyPrice.Some? ==> u["monthly_price"] == data.monthlyPrice.value)
  {
    var u := UpdateRecord(data);
    assert "title" in Columns && "description" in Columns;
    assert "image_url" in Columns && "monthly_price" in Columns;
  }

  /** Insert and update rename the same way: an update defining all four fields
      writes exactly the insert object. */
  lemma FullUpdateIsInsert(data: InsertPublication, id: Option<string>)
    ensures UpdateRecord(UpdatePublication(id, Some(data.title), Some(data.description),
                                           Some(data.imageUrl), Some(data.monthlyPrice)))
            == InsertRecord(data)
  {
    var full := UpdatePublication(id, Some(data.title), Some(data.description),
                                  Some(data.imageUrl), Some(data.monthlyPrice));
    assert UpdateRecord(full).Keys == InsertRecord(data).Keys;
  }

  /** The row the table returns for an insert; `id` and `created_at` are the
      table's own. */
  function Inserted(id: string, createdAt: string, record: Record): PublicationRow
    requires Columns <= record.Keys
  {
    PublicationRow(id, record["title"], record["description"],
                   record["image_url"], record["monthly_price"], createdAt)
  }

  function Column(row: PublicationRow, updates: Record, column: string, current: string): string
  {
    if column in updates then updates[column] else current
  }

  /** The row the table returns for an update: the given columns take their new
      values, the others keep theirs. */
  function Patched(row: PublicationRow, updates: Record): PublicationRow
  {
    row.(title := Column(row, updates, "title", row.title),
         description := Column(row, updates, "description", row.description),
         image_url := Column(row, updates, "image_url", row.image_url),
         monthly_price := Column(row, updates, "monthly_price", row.monthly_price))
  }

  /** The object create and update return: the row under the model's field
      names, the snake_case columns going to camelCase fields. */
  function ToPublication(row: PublicationRow): (p: Publication)
    ensures p.id == row.id && p.title == row.title && p.description == row.description
    ensures p.imageUrl == row.image_url && p.monthlyPrice == row.monthly_price && p.createdAt == row.created_at
  {
    Publication(row.id, row.title, row.description, row.image_url, row.monthly_price, row.created_at)
  }

  /** Renaming on insert and projecting the returned row give back the fields
      that were inserted. */
  lemma InsertRoundTrip(id: string, createdAt: string, data: InsertPublication)
    ensures Columns <= InsertRecord(data).Keys
    ensures ToPublication(Inserted(id, createdAt, InsertRecord(data)))
            == Publication(id, data.title, data.description, data.imageUrl, data.monthlyPrice, createdAt)
  {
  }

  /** After an update, the projected publication has each defined field's new
      value and keeps every other field, its id and its creation time. */
  lemma UpdateRoundTrip(row: PublicationRow, data: UpdatePublication)
    ensures var p := ToPublication(Patched(row, UpdateRecord(data)));
            && p.id == row.id && p.createdAt == row.created_at
            && p.title == (if data.title.Some? then data.title.value else row.title)
            && p.description == (if data.description.Some? then data.description.value else row.description)
            && p.imageUrl == (if data.imageUrl.Some? then data.imageUrl.value else row.image_url)
            && p.monthlyPrice == (if data.monthlyPrice.Some? then data.monthlyPrice.value else row.monthly_price)
  {
    UpdateRecordKeys(data);
  }

  // ---------------------------------------------------------------------------
  // The storage operations
  // ---------------------------------------------------------------------------

  /** `getAllPublications` returns the rows as the table has them, column names and all. */
  function GetAllPublications(reply: ListReply<PublicationRow>): (r: Result<seq<PublicationRow>, string>)
    ensures r.Failure? <==> reply.ListError?
    ensures r.Failure? ==> r.error == reply.error.message
    ensures r.Success? ==> r.value == (if reply.data.Some? then reply.data.value else [])
  {
    ListOrEmpty(reply)
  }

  /** `getPublication` returns the row as the table has it, or null. */
  function GetPublication(reply: Reply<PublicationRow>): (r: Result<Option<PublicationRow>, string>)
    ensures r == Success(None) <==> reply.Error? && reply.error.code == NotFoundCode
    ensures r.Failure? <==> reply.Error? && reply.error.code != NotFoundCode
    ensures r.Failure? ==> r.error == reply.error.message
    ensures reply.Data? ==> r == Success(Some(reply.row))
  {
    SingleOrNull(reply)
  }

  /** `createPublicationWithClient` and `updatePublicationWithClient` project the returned row. */
  function WrittenPublication(reply: Reply<PublicationRow>): (r: Result<Publication, string>)
    ensures r.Success? <==> reply.Data?
    ensures r.Success? ==> r.value == ToPublication(reply.row)
    ensures r.Failure? ==> r.error == reply.error.message
  {
    match SingleOrThrow(reply)
    case Success(row) => Success(ToPublication(row))
    case Failure(message) => Failure(message)
  }

  /** `deletePublicationWithClient`: only an error is of interest. */
  function DeletePublication(error: Option<QueryError>): (r: Result<(), string>)
    ensures r.Success? <==> error.None?
    ensures r.Failure? ==> r.error == error.value.message
  {
    match error
    case None => Success(())
    case Some(e) => Failure(e.message)
  }

  /** `getSetting`: the row for the key, null when there is none, and any
      other error thrown with its message. */
  function GetSetting(reply: Reply<Setting>): (r: Result<Option<Setting>, string>)
    ensures r == Success(None) <==> reply.Error? && reply.error.code == NotFoundCode
    ensures r.Failure? <==> reply.Error? && reply.error.code != NotFoundCode
    ensures r.Failure? ==> r.error == reply.error.message
    ensures reply.Data? ==> r == Success(Some(reply.row))
  {
    SingleOrNull(reply)
  }

  /** `getAllSettings`: every row, the empty list for null data, or the error thrown. */
  function GetAllSettings(reply: ListReply<Setting>): (r: Result<seq<Setting>, string>)
    ensures r.Failure? <==> reply.ListError?
    ensures r.Failure? ==> r.error == reply.error.message
    ensures r.Success? ==> r.value == (if reply.data.Some? then reply.data.value else [])
  {
    ListOrEmpty(reply)
  }

  // ---------------------------------------------------------------------------
  // The publications table as a map from id to row
  // ---------------------------------------------------------------------------

  type Table = map<string, PublicationRow>

  /** `.eq('id', id).single()` on a table: that row or the not-found error. */
  function SelectOne(table: Table, id: string): Reply<PublicationRow>
  {
    if id in table then Data(table[id]) else Error(QueryError(NotFoundCode, NoRowsMessage))
  }

  /** `.update(updates).eq('id', id).select().single()`: the patched row, or not found. */
  function UpdateOne(table: Table, id: string, updates: Record): Reply<PublicationRow>
  {
    if id in table then Data(Patched(table[id], updates)) else Error(QueryError(NotFoundCode, NoRowsMessage))
  }

  /** Reading one publication gives null exactly for an id the table lacks. */
  lemma GetPublicationOfTable(table: Table, id: string)
    ensures GetPublication(SelectOne(table, id)) == Success(if id in table then Some(table[id]) else None)
  {
  }

  /** An update of an id the table lacks is thrown, not turned into null: the
      not-found rule holds for reads only. */
  lemma UpdateOfMissingThrows(table: Table, id: string, data: UpdatePublication)
    requires id !in table
    ensures WrittenPublication(UpdateOne(table, id, UpdateRecord(data))) == Failure(NoRowsMessage)
  {
  }

  // ---------------------------------------------------------------------------
  // The settings table
  // ---------------------------------------------------------------------------

  /** The settings table, one value per key. Whether a client may write a row
      is the database's row-level policy, which refuses with an error or lets
      the write through. */
  class SettingsTable {
    var values: map<string, string>
    const policy: (Auth.Client, Setting) -> Option<QueryError>

    constructor (values: map<string, string>, policy: (Auth.Client, Setting) -> Option<QueryError>)
      ensures this.values == values && this.policy == policy
    {
      this.values := values;
      this.policy := policy;
    }

    /** `.eq('key', key).single()`: the setting or the not-found error. */
    function Select(key: string): Reply<Setting>
      reads this
    {
      if key in values then Data(Setting(key, values[key])) else Error(QueryError(NotFoundCode, NoRowsMessage))
    }

    /** `setSettingWithClient`: an upsert on the key. A refused write throws and
        changes nothing; otherwise the key holds the new value, every other key
        is untouched, and reading the key gives the new setting. */
    method Upsert(client: Auth.Client, setting: Setting) returns (r: Result<Setting, string>)
      modifies this
      ensures policy(client, setting).Some? ==>
        r == Failure(policy(client, setting).value.message) && values == old(values)
      ensures policy(client, setting).None? ==>
        && r == Success(setting)
        && values == old(values)[setting.key := setting.value]
        && GetSetting(Select(setting.key)) == Success(Some(setting))
    {
      var refusal := policy(client, setting);
      if refusal.Some? {
        return Failure(refusal.value.message);
      }
      values := values[setting.key := setting.value];
      return Success(setting);
    }
  }
}
