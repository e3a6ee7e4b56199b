/** The API's route handlers: each turns what storage returns into a status and
    a JSON body. The publication writes and the settings write are behind the
    `requireAuth` middleware. */
module Routes {
  import opened Wrappers
  import opened Strings
  import opened Schema
  import Storage
  import Auth
  import WhatsApp

  const Ok: nat := 200
  const CreatedStatus: nat := 201
  const NoContent: nat := 204
  const BadRequest: nat := 400
  const NotFound: nat := 404
  const ServerError: nat := 500

  const PublicationNotFound: string := "Publication not found"
  const DefaultSiteTitle: string := "Meu Portfólio"
  const DefaultHeroImage: string := ""

  /** The JSON bodies the handlers send. */
  datatype Body =
    | Rows(rows: seq<Storage.PublicationRow>)   // rows as the table names their columns
    | Row(row: Storage.PublicationRow)
    | Written(publication: Publication)          // the projected publication
    | Invalid(issues: seq<Issue>)                // a failed schema parse
    | ErrorJson(error: string)
    | NoBody
    | Phone(number: string)
    | Site(title: string, heroImage: string)
    | SettingsJson(settings: map<SettingName, string>)   // each entry under its JsonName
    | Done                                        // `{ success: true }`

  datatype Response = Response(status: nat, body: Body)

  // ---------------------------------------------------------------------------
  // Authentication in front of a handler
  // ---------------------------------------------------------------------------

  /** A protected route: the middleware's 401, or the handler with the client
      that sends the verified token. */
  function Guard(d: Auth.Decision, handler: Auth.Client -> Response): (r: Response)
    ensures d.Unauthorized? ==> r.status == Auth.Unauthorized401 && r.body == ErrorJson(d.error)
    ensures d.Authenticated? ==> r == handler(Auth.ClientFor(d.token))
  {
    match d
    case Unauthorized(error) => Response(Auth.Unauthorized401, ErrorJson(error))
    case Authenticated(_, token) => handler(Auth.ClientFor(token))
  }

  /** A protected route answers 401 unless the token was verified, and then runs
      its handler with a client sending that very token. */
  lemma GuardOutcomes(header: Option<string>, verify: string -> Auth.Verification, handler: Auth.Client -> Response)
    ensures var d := Auth.Authenticate(header, verify);
            var r := Guard(d, handler);
            && (d.Unauthorized? ==> r.status == 401 && r.body == ErrorJson(d.error))
            && (d.Authenticated? ==>
                  && r == handler(Auth.ClientFor(d.token))
                  && Auth.BearerToken(Auth.ClientFor(d.token).authorization) == Some(d.token))
  {
    var d := Auth.Authenticate(header, verify);
    if d.Authenticated? {
      Auth.ClientHeaderRoundTrip(d.token);
    }
  }

  /** Without a usable header no protected handler runs, whatever it would do. */
  lemma NoTokenNoHandler(header: Option<string>, verify: string -> Auth.Verification,
                         handler1: Auth.Client -> Response, handler2: Auth.Client -> Response)
    requires header.None? || !Auth.StartsWith(header.value, Auth.Prefix)
    ensures Guard(Auth.Authenticate(header, verify), handler1)
         == Guard(Auth.Authenticate(header, verify), handler2)
         == Response(401, ErrorJson(Auth.NoToken))
  {
  }

  // ---------------------------------------------------------------------------
  // Publications
  // ---------------------------------------------------------------------------

  /** GET /api/publications: the rows, or 500 with the error. */
  function ListPublications(reply: Storage.ListReply<Storage.PublicationRow>): (r: Response)
    ensures reply.ListError? ==> r == Response(ServerError, ErrorJson(reply.error.message))
    ensures reply.Rows? ==> r.status == Ok && r.body.Rows?
    ensures reply.Rows? && reply.data.None? ==> r.body == Rows([])
    ensures reply.Rows? && reply.data.Some? ==> r == Response(Ok, Rows(reply.data.value))
  {
    match Storage.GetAllPublications(reply)
    case Success(rows) => Response(Ok, Rows(rows))
    case Failure(message) => Response(ServerError, ErrorJson(message))
  }

  /** GET /api/publications/:id: 404 for an id with no row, 500 for any other
      error, else the row. */
  function GetPublicationById(reply: Storage.Reply<Storage.PublicationRow>): (r: Response)
    ensures r == Response(NotFound, ErrorJson(PublicationNotFound))
            <==> reply.Error? && reply.error.code == Storage.NotFoundCode
    ensures r.status == ServerError <==> reply.Error? && reply.error.code != Storage.NotFoundCode
    ensures r.status == ServerError ==> r.body == ErrorJson(reply.error.message)
    ensures reply.Data? ==> r == Response(Ok, Row(reply.row))
  {
    match Storage.GetPublication(reply)
    case Failure(message) => Response(ServerError, ErrorJson(message))
    case Success(found) =>
      if found.None? then Response(NotFound, ErrorJson(PublicationNotFound))
      else Response(Ok, Row(found.value))
  }

  /** On a table, GET /api/publications/:id is 404 exactly for an absent id. */
  lemma GetPublicationOfTable(table: Storage.Table, id: string)
    ensures GetPublicationById(Storage.SelectOne(table, id)).status == NotFound <==> id !in table
    ensures id in table ==> GetPublicationById(Storage.SelectOne(table, id)) == Response(Ok, Row(table[id]))
  {
  }

  /** POST /api/publications after authentication: a body the insert schema
      refuses is 400 and reaches no storage; the inserted row, projected, is
      201; a storage error is 400 as well. */
  function CreatePublication(client: Auth.Client, body: PublicationBody,
                             insert: (Auth.Client, Storage.Record) -> Storage.Reply<Storage.PublicationRow>): (r: Response)
    ensures ValidateInsertPublication(body).Failure? ==>
      r == Response(BadRequest, Invalid(ValidateInsertPublication(body).error))
    ensures ValidateInsertPublication(body).Success? ==>
      var reply := insert(client, Storage.InsertRecord(ValidateInsertPublication(body).value));
      && (reply.Data? ==> r == Response(CreatedStatus, Written(Storage.ToPublication(reply.row))))
      && (reply.Error? ==> r == Response(BadRequest, ErrorJson(reply.error.message)))
  {
    match ValidateInsertPublication(body)
    case Failure(issues) => Response(BadRequest, Invalid(issues))
    case Success(data) =>
      match Storage.WrittenPublication(insert(client, Storage.InsertRecord(data)))
      case Success(p) => Response(CreatedStatus, Written(p))
      case Failure(message) => Response(BadRequest, ErrorJson(message))
  }

  /** A created publication carries the fields that were posted. */
  lemma CreateCarriesFields(client: Auth.Client, body: PublicationBody, id: string, createdAt: string)
    requires ValidateInsertPublication(body).Success?
    ensures var data := ValidateInsertPublication(body).value;
            var insert := (c: Auth.Client, record: Storage.Record) =>
              if Storage.Columns <= record.Keys then Storage.Data(Storage.Inserted(id, createdAt, record))
              else Storage.Error(Storage.QueryError("", ""));
            CreatePublication(client, body, insert)
            == Response(CreatedStatus, Written(Publication(id, data.title, data.description,
                                                           data.imageUrl, data.monthlyPrice, createdAt)))
  {
    Storage.InsertRoundTrip(id, createdAt, ValidateInsertPublication(body).value);
  }

  /** PATCH /api/publications/:id after authentication: a body the update schema
      refuses is 400; otherwise the row with the defined fields changed, or 400
      with the storage error, a missing id included. */
  method UpdatePublication(client: Auth.Client, id: string, body: PublicationBody,
                           update: (Auth.Client, string, Storage.Record) -> Storage.Reply<Storage.PublicationRow>)
    returns (r: Response)
    ensures ValidateUpdatePublication(body).Failure? ==>
      r == Response(BadRequest, Invalid(ValidateUpdatePublication(body).error))
    ensures ValidateUpdatePublication(body).Success? ==>
      var reply := update(client, id, Storage.UpdateRecord(ValidateUpdatePublication(body).value));
      && (reply.Data? ==> r == Response(Ok, Written(Storage.ToPublication(reply.row))))
      && (reply.Error? ==> r == Response(BadRequest, ErrorJson(reply.error.message)))
  {
    var validated := ValidateUpdatePublication(body);
    if validated.Failure? {
      return Response(BadRequest, Invalid(validated.error));
    }
    var updates := Storage.BuildUpdates(validated.value);
    var written := Storage.WrittenPublication(update(client, id, updates));
    if written.Failure? {
      return Response(BadRequest, ErrorJson(written.error));
    }
    return Response(Ok, Written(written.value));
  }

  /** DELETE /api/publications/:id after authentication: 204 with no body, or 500. */
  function DeletePublication(client: Auth.Client, id: string,
                             delete: (Auth.Client, string) -> Option<Storage.QueryError>): (r: Response)
    ensures delete(client, id).None? <==> r == Response(NoContent, NoBody)
    ensures delete(client, id).Some? ==> r == Response(ServerError, ErrorJson(delete(client, id).value.message))
  {
    match Storage.DeletePublication(delete(client, id))
    case Success(_) => Response(NoContent, NoBody)
    case Failure(message) => Response(ServerError, ErrorJson(message))
  }

  // ---------------------------------------------------------------------------
  // Settings read by the storefront
  // ---------------------------------------------------------------------------

  /** `setting?.value`: the value of a setting that was found. */
  function ValueOf(setting: Option<Setting>): Option<string>
  {
    match setting
    case Some(s) => Some(s.value)
    case None => None
  }

  /** GET /api/settings/whatsapp: the stored number, the default number when it
      is missing or empty, 500 on any other error. */
  function WhatsappSetting(reply: Storage.Reply<Setting>): (r: Response)
    ensures reply.Error? && reply.error.code != Storage.NotFoundCode ==>
      r == Response(ServerError, ErrorJson(reply.error.message))
    ensures reply.Error? && reply.error.code == Storage.NotFoundCode ==>
      r == Response(Ok, Phone(WhatsApp.DefaultPhone))
    ensures reply.Data? ==>
      r == Response(Ok, Phone(if reply.row.value != "" then reply.row.value else WhatsApp.DefaultPhone))
  {
    match Storage.GetSetting(reply)
    case Failure(message) => Response(ServerError, ErrorJson(message))
    case Success(setting) => Response(Ok, Phone(OrElse(ValueOf(setting), WhatsApp.DefaultPhone)))
  }

  /** The number the server sends is the one the storefront would fall back to
      itself: the pages' own default never changes the link. */
  lemma WhatsappDefaultsAgree(reply: Storage.Reply<Setting>)
    requires WhatsappSetting(reply).status == Ok
    ensures var n := WhatsappSetting(reply).body.number;
            n != "" && WhatsApp.Phone(Some(n)) == n
  {
  }

  /** GET /api/settings/site: the title is read first; an error on either read
      is 500; otherwise each value as stored, or its default when the setting
      is missing or its value empty. */
  function SiteSettings(titleReply: Storage.Reply<Setting>, heroReply: Storage.Reply<Setting>): (r: Response)
    ensures Storage.GetSetting(titleReply).Failure? ==>
      r == Response(ServerError, ErrorJson(Storage.GetSetting(titleReply).error))
    ensures Storage.GetSetting(titleReply).Success? && Storage.GetSetting(heroReply).Failure? ==>
      r == Response(ServerError, ErrorJson(Storage.GetSetting(heroReply).error))
    ensures Storage.GetSetting(titleReply).Success? && Storage.GetSetting(heroReply).Success? ==>
      && r.status == Ok && r.body.Site?
      && r.body.title == (if titleReply.Data? && titleReply.row.value != "" then titleReply.row.value else DefaultSiteTitle)
      && r.body.heroImage == (if heroReply.Data? && heroReply.row.value != "" then heroReply.row.value else DefaultHeroImage)
    ensures titleReply.Error? && titleReply.error.code == Storage.NotFoundCode
            && heroReply.Error? && heroReply.error.code == Storage.NotFoundCode ==>
      r == Response(Ok, Site(DefaultSiteTitle, DefaultHeroImage))
  {
    match Storage.GetSetting(titleReply)
    case Failure(message) => Response(ServerError, ErrorJson(message))
    case Success(title) =>
      match Storage.GetSetting(heroReply)
      case Failure(message) => Response(ServerError, ErrorJson(message))
      case Success(hero) => Response(Ok, Site(OrElse(ValueOf(title), DefaultSiteTitle), OrElse(ValueOf(hero), DefaultHeroImage)))
  }

  /** Each field falls back on its own: a stored title with no hero image row
      keeps the title, and a stored empty title gives the default title. */
  lemma SiteSettingsFieldByField(title: string, message: string)
    requires title != ""
    ensures SiteSettings(Storage.Data(Setting("site_title", title)),
                         Storage.Error(Storage.QueryError(Storage.NotFoundCode, message)))
            == Response(Ok, Site(title, DefaultHeroImage))
    ensures SiteSettings(Storage.Data(Setting("site_title", "")),
                         Storage.Error(Storage.QueryError(Storage.NotFoundCode, message)))
            == Response(Ok, Site(DefaultSiteTitle, DefaultHeroImage))
  {
  }

  /** A stored, non-empty title and hero image are sent as they are. */
  lemma SiteSettingsStored(title: string, hero: string)
    requires title != "" && hero != ""
    ensures SiteSettings(Storage.Data(Setting("site_title", title)), Storage.Data(Setting("hero_image", hero)))
            == Response(Ok, Site(title, hero))
  {
  }

  // ---------------------------------------------------------------------------
  // GET /api/settings/all
  // ---------------------------------------------------------------------------

  /** The three settings the storefront reads: the key each is stored under
      and the name it is sent under. */
  datatype SettingName = SiteTitle | HeroImage | WhatsappNumber

  const AllNames: set<SettingName> := {SiteTitle, HeroImage, WhatsappNumber}

  function KeyOf(name: SettingName): string
  {
    match name
    case SiteTitle => "site_title"
    case HeroImage => "hero_image"
    case WhatsappNumber => "whatsapp_number"
  }

  function JsonName(name: SettingName): string
  {
    match name
    case SiteTitle => "siteTitle"
    case HeroImage => "heroImage"
    case WhatsappNumber => "whatsappNumber"
  }

  /** The value of the last row with the key, if any row has it. */
  function LastValue(settings: seq<Setting>, key: string): Option<string>
    decreases |settings|
  {
    if settings == [] then None
    else if settings[|settings| - 1].key == key then Some(settings[|settings| - 1].value)
    else LastValue(settings[..|settings| - 1], key)
  }

  /** LastValue is what it says: none exactly when no row has the key, and
      otherwise the value of a row with the key that no later row with the key
      follows. */
  lemma {:induction false} LastValueSpec(settings: seq<Setting>, key: string)
    ensures LastValue(settings, key).None? <==> forall i :: 0 <= i < |settings| ==> settings[i].key != key
    ensures LastValue(settings, key).Some? ==>
      exists i :: 0 <= i < |settings| && settings[i] == Setting(key, LastValue(settings, key).value)
                  && forall j :: i < j < |settings| ==> settings[j].key != key
    decreases |settings|
  {
    if settings != [] {
      var n := |settings| - 1;
      var prefix := settings[..n];
      if settings[n].key != key {
        LastValueSpec(prefix, key);
        assert forall i :: 0 <= i < n ==> prefix[i] == settings[i];
        if LastValue(prefix, key).Some? {
          var i :| 0 <= i < |prefix| && prefix[i] == Setting(key, LastValue(prefix, key).value)
                   && forall j :: i < j < |prefix| ==> prefix[j].key != key;
          assert settings[i] == Setting(key, LastValue(settings, key).value);
        }
      }
    }
  }

  /** The setting a row's key belongs to, if any. */
  function NameOf(key: string): (name: Option<SettingName>)
    ensures name.Some? ==> KeyOf(name.value) == key
    ensures name.None? ==> forall n: SettingName :: KeyOf(n) != key
  {
    if key == "site_title" then Some(SiteTitle)
    else if key == "hero_image" then Some(HeroImage)
    else if key == "whatsapp_number" then Some(WhatsappNumber)
    else None
  }

  /** What one row does to `settingsMap`. */
  function Put(settingsMap: map<SettingName, string>, s: Setting): map<SettingName, string>
  {
    if NameOf(s.key).Some? then settingsMap[NameOf(s.key).value := s.value] else settingsMap
  }

  /** The `settingsMap` the handler sends: the rows put in one after the other.
      Rows whose keys name no setting leave it empty. */
  function SettingsMapOf(settings: seq<Setting>): (m: map<SettingName, string>)
    ensures (forall i :: 0 <= i < |settings| ==> NameOf(settings[i].key).None?) ==> m == map[]
    decreases |settings|
  {
    if settings == [] then map[] else Put(SettingsMapOf(settings[..|settings| - 1]), settings[|settings| - 1])
  }

  /** Each setting holds the value of the last row with its key, and is absent
      when no row has it. */
  lemma {:induction false} SettingsMapIsLastValue(settings: seq<Setting>, name: SettingName)
    ensures (name in SettingsMapOf(settings)) == LastValue(settings, KeyOf(name)).Some?
    ensures name in SettingsMapOf(settings) ==> SettingsMapOf(settings)[name] == LastValue(settings, KeyOf(name)).value
    decreases |settings|
  {
    if settings != [] {
      SettingsMapIsLastValue(settings[..|settings| - 1], name);
    }
  }

  /** `settings.forEach(...)` filling `settingsMap`: three independent ifs per row. */
  method BuildSettingsMap(settings: seq<Setting>) returns (settingsMap: map<SettingName, string>)
    ensures settingsMap == SettingsMapOf(settings)
  {
    settingsMap := map[];
    assert SettingsMapOf([]) == map[];
    for i := 0 to |settings|
      invariant settingsMap == SettingsMapOf(settings[..i])
    {
      var setting := settings[i];
      assert settings[..i + 1][..i] == settings[..i];
      if setting.key == "site_title" { settingsMap := settingsMap[SiteTitle := setting.value]; }
      if setting.key == "hero_image" { settingsMap := settingsMap[HeroImage := setting.value]; }
      if setting.key == "whatsapp_number" { settingsMap := settingsMap[WhatsappNumber := setting.value]; }
    }
    assert settings[..|settings|] == settings;
  }

  /** A setting is in the map exactly when some row has its key, and then holds
      the value of the last such row; rows with other keys leave no trace. */
  lemma SettingsMapContents(settings: seq<Setting>, name: SettingName)
    ensures name in SettingsMapOf(settings) <==> exists i :: 0 <= i < |settings| && settings[i].key == KeyOf(name)
    ensures name in SettingsMapOf(settings) ==>
      exists i :: 0 <= i < |settings| && settings[i] == Setting(KeyOf(name), SettingsMapOf(settings)[name])
                  && forall j :: i < j < |settings| ==> settings[j].key != KeyOf(name)
  {
    SettingsMapIsLastValue(settings, name);
    LastValueSpec(settings, KeyOf(name));
  }

  /** Rows with other keys are ignored, and a later row overwrites an earlier one. */
  lemma OtherKeysIgnored()
    ensures SettingsMapOf([Setting("theme", "dark")]) == map[]
  {
    var s1 := [Setting("theme", "dark")];
    assert s1[..0] == [];
  }

  lemma LaterRowWins()
    ensures SettingsMapOf([Setting("site_title", "A"), Setting("site_title", "B")]) == map[SiteTitle := "B"]
  {
    var s2 := [Setting("site_title", "A"), Setting("site_title", "B")];
    assert s2[..1] == [Setting("site_title", "A")];
    assert s2[..1][..0] == [];
    assert map[SiteTitle := "A"][SiteTitle := "B"] == map[SiteTitle := "B"];
  }

  /** GET /api/settings/all. */
  method AllSettings(reply: Storage.ListReply<Setting>) returns (r: Response)
    ensures reply.ListError? ==> r == Response(ServerError, ErrorJson(reply.error.message))
    ensures reply.Rows? ==> r == Response(Ok, SettingsJson(SettingsMapOf(Storage.GetAllSettings(reply).value)))
    ensures reply.Rows? && reply.data.None? ==> r == Response(Ok, SettingsJson(map[]))
  {
    var settings := Storage.GetAllSettings(reply);
    if settings.Failure? {
      return Response(ServerError, ErrorJson(settings.error));
    }
    var settingsMap := BuildSettingsMap(settings.value);
    assert SettingsMapOf([]) == map[];
    return Response(Ok, SettingsJson(settingsMap));
  }

  // ---------------------------------------------------------------------------
  // POST /api/settings
  // ---------------------------------------------------------------------------

  /** The three members of the body the handler reads; any may be undefined. */
  datatype SettingsBody = SettingsBody(siteTitle: Option<string>, heroImage: Option<string>, whatsappNumber: Option<string>)

  function Write(key: string, value: Option<string>): seq<Setting>
  {
    if value.Some? then [Setting(key, value.value)] else []
  }

  /** The upserts the handler makes, in order: one per defined member, under its key. */
  function SettingsWrites(body: SettingsBody): (w: seq<Setting>)
    ensures |w| <= 3
    ensures forall k :: 0 <= k < |w| ==> w[k].key in {"site_title", "hero_image", "whatsapp_number"}
  {
    Write("site_title", body.siteTitle) + Write("hero_image", body.heroImage) + Write("whatsapp_number", body.whatsappNumber)
  }

  /** What running the writes against the table's policy leaves: the values,
      and the message of the first refused write, after which nothing more is
      written. Writes before a refusal stay. */
  datatype Run = Run(values: map<string, string>, refused: Option<string>)

  function RunWrites(values: map<string, string>, policy: (Auth.Client, Setting) -> Option<Storage.QueryError>,
                     client: Auth.Client, writes: seq<Setting>): (run: Run)
    ensures run.refused.None? <==> forall k :: 0 <= k < |writes| ==> policy(client, writes[k]).None?
    ensures run.refused.Some? ==>
              exists k :: 0 <= k < |writes| && policy(client, writes[k]).Some?
                          && run.refused.value == policy(client, writes[k]).value.message
    decreases |writes|
  {
    if writes == [] then Run(values, None)
    else
      var refusal := policy(client, writes[0]);
      if refusal.Some? then Run(values, Some(refusal.value.message))
      else RunWrites(values[writes[0].key := writes[0].value], policy, client, writes[1..])
  }

  /** The values after upserting the writes one after another. */
  function Applied(values: map<string, string>, writes: seq<Setting>): map<string, string>
    decreases |writes|
  {
    if writes == [] then values else Applied(values[writes[0].key := writes[0].value], writes[1..])
  }

  /** When no write is refused, the run applies every write. */
  lemma {:induction false} RunWritesAccepted(values: map<string, string>,
                             policy: (Auth.Client, Setting) -> Option<Storage.QueryError>,
                             client: Auth.Client, writes: seq<Setting>)
    requires forall k :: 0 <= k < |writes| ==> policy(client, writes[k]).None?
    ensures RunWrites(values, policy, client, writes) == Run(Applied(values, writes), None)
    decreases |writes|
  {
    if writes != [] {
      var rest := writes[1..];
      assert forall k :: 0 <= k < |rest| ==> rest[k] == writes[k + 1];
      RunWritesAccepted(values[writes[0].key := writes[0].value], policy, client, rest);
    }
  }

  /** When write k is the first one refused, the run applies exactly the
      writes before it and reports write k's message. */
  lemma {:induction false} RunWritesRefused(values: map<string, string>,
                             policy: (Auth.Client, Setting) -> Option<Storage.QueryError>,
                             client: Auth.Client, writes: seq<Setting>, k: nat)
    requires k < |writes| && policy(client, writes[k]).Some?
    requires forall j :: 0 <= j < k ==> policy(client, writes[j]).None?
    ensures RunWrites(values, policy, client, writes)
            == Run(Applied(values, writes[..k]), Some(policy(client, writes[k]).value.message))
    decreases k
  {
    if k > 0 {
      var rest := writes[1..];
      assert forall j :: 0 <= j < |rest| ==> rest[j] == writes[j + 1];
      RunWritesRefused(values[writes[0].key := writes[0].value], policy, client, rest, k - 1);
      assert writes[..k][1..] == rest[..k - 1];
    }
  }

  /** A key no write names keeps its value, or stays absent. */
  lemma {:induction false} AppliedUntouched(values: map<string, string>, writes: seq<Setting>, key: string)
    requires forall k :: 0 <= k < |writes| ==> writes[k].key != key
    ensures (key in Applied(values, writes)) == (key in values)
    ensures key in values ==> Applied(values, writes)[key] == values[key]
    decreases |writes|
  {
    if writes != [] {
      var rest := writes[1..];
      assert forall k :: 0 <= k < |rest| ==> rest[k] == writes[k + 1];
      AppliedUntouched(values[writes[0].key := writes[0].value], rest, key);
    }
  }

  /** A key holds the value of the last write that names it. */
  lemma {:induction false} AppliedLastWins(values: map<string, string>, writes: seq<Setting>, k: nat)
    requires k < |writes|
    requires forall j :: k < j < |writes| ==> writes[j].key != writes[k].key
    ensures writes[k].key in Applied(values, writes)
    ensures Applied(values, writes)[writes[k].key] == writes[k].value
    decreases |writes|
  {
    var rest := writes[1..];
    assert forall j :: 0 <= j < |rest| ==> rest[j] == writes[j + 1];
    if k == 0 {
      AppliedUntouched(values[writes[0].key := writes[0].value], rest, writes[0].key);
    } else {
      AppliedLastWins(values[writes[0].key := writes[0].value], rest, k - 1);
    }
  }

  /** Applying two lists of writes is applying the first, then the second. */
  lemma {:induction false} AppliedAppend(values: map<string, string>, a: seq<Setting>, b: seq<Setting>)
    ensures Applied(values, a + b) == Applied(Applied(values, a), b)
    decreases |a|
  {
    if a == [] {
      assert a + b == b;
    } else {
      assert (a + b)[0] == a[0];
      assert (a + b)[1..] == a[1..] + b;
      AppliedAppend(values[a[0].key := a[0].value], a[1..], b);
    }
  }

  /** The values after one optional upsert. */
  function SetIfDefined(values: map<string, string>, key: string, value: Option<string>): map<string, string>
  {
    if value.Some? then values[key := value.value] else values
  }

  lemma AppliedWrite(values: map<string, string>, key: string, value: Option<string>)
    ensures Applied(values, Write(key, value)) == SetIfDefined(values, key, value)
  {
    if value.Some? {
      assert Write(key, value)[1..] == [];
    }
  }

  /** When the table accepts every upsert, each defined member is stored under
      its key, and every other key, those of the undefined members included,
      keeps its value or stays absent. */
  lemma PostSettingsAccepted(values: map<string, string>,
                             policy: (Auth.Client, Setting) -> Option<Storage.QueryError>,
                             client: Auth.Client, body: SettingsBody, key: string)
    requires forall k :: 0 <= k < |SettingsWrites(body)| ==> policy(client, SettingsWrites(body)[k]).None?
    ensures var run := RunWrites(values, policy, client, SettingsWrites(body));
            && run.refused.None?
            && (body.siteTitle.Some? ==> "site_title" in run.values && run.values["site_title"] == body.siteTitle.value)
            && (body.heroImage.Some? ==> "hero_image" in run.values && run.values["hero_image"] == body.heroImage.value)
            && (body.whatsappNumber.Some? ==>
                  "whatsapp_number" in run.values && run.values["whatsapp_number"] == body.whatsappNumber.value)
    ensures var run := RunWrites(values, policy, client, SettingsWrites(body));
            !(key == "site_title" && body.siteTitle.Some?)
            && !(key == "hero_image" && body.heroImage.Some?)
            && !(key == "whatsapp_number" && body.whatsappNumber.Some?) ==>
              (key in run.values) == (key in values) && (key in values ==> run.values[key] == values[key])
  {
    var w1, w2, w3 := Write("site_title", body.siteTitle), Write("hero_image", body.heroImage),
                      Write("whatsapp_number", body.whatsappNumber);
    RunWritesAccepted(values, policy, client, SettingsWrites(body));
    AppliedAppend(values, w1 + w2, w3);
    AppliedAppend(values, w1, w2);
    AppliedWrite(values, "site_title", body.siteTitle);
    var v1 := SetIfDefined(values, "site_title", body.siteTitle);
    AppliedWrite(v1, "hero_image", body.heroImage);
    var v2 := SetIfDefined(v1, "hero_image", body.heroImage);
    AppliedWrite(v2, "whatsapp_number", body.whatsappNumber);
  }

  /** A refused upsert of the site title is answered 400 and nothing is written,
      while a refusal of the number keeps the title and hero image already written. */
  lemma PostSettingsRefused(values: map<string, string>,
                            policy: (Auth.Client, Setting) -> Option<Storage.QueryError>,
                            client: Auth.Client, body: SettingsBody)
    ensures body.siteTitle.Some? && policy(client, Setting("site_title", body.siteTitle.value)).Some? ==>
      RunWrites(values, policy, client, SettingsWrites(body))
      == Run(values, Some(policy(client, Setting("site_title", body.siteTitle.value)).value.message))
    ensures body.siteTitle.Some? && body.heroImage.Some? && body.whatsappNumber.Some?
            && policy(client, Setting("site_title", body.siteTitle.value)).None?
            && policy(client, Setting("hero_image", body.heroImage.value)).None?
            && policy(client, Setting("whatsapp_number", body.whatsappNumber.value)).Some? ==>
      RunWrites(values, policy, client, SettingsWrites(body)).values
      == values["site_title" := body.siteTitle.value]["hero_image" := body.heroImage.value]
  {
    var w1, w2, w3 := Write("site_title", body.siteTitle), Write("hero_image", body.heroImage),
                      Write("whatsapp_number", body.whatsappNumber);
    assert SettingsWrites(body) == w1 + (w2 + w3);
    RunAppend(values, policy, client, w1, w2 + w3);
    if body.siteTitle.Some? && policy(client, Setting("site_title", body.siteTitle.value)).None? {
      var v1 := values["site_title" := body.siteTitle.value];
      assert w1[1..] == [];
      RunAppend(v1, policy, client, w2, w3);
      if body.heroImage.Some? && policy(client, Setting("hero_image", body.heroImage.value)).None? {
        assert w2[1..] == [];
      }
    }
  }

  /** The handler after authentication: the defined members are upserted in the
      order siteTitle, heroImage, whatsappNumber; the first refused upsert is
      answered 400 with its message, with the earlier upserts kept and the
      later ones not made; otherwise `{ success: true }`. */
  method PostSettings(table: Storage.SettingsTable, client: Auth.Client, body: SettingsBody) returns (r: Response)
    modifies table
    ensures var run := RunWrites(old(table.values), table.policy, client, SettingsWrites(body));
            && table.values == run.values
            && r == (if run.refused.Some? then Response(BadRequest, ErrorJson(run.refused.value)) else Response(Ok, Done))
  {
    ghost var start := table.values;
    ghost var w1, w2, w3 := Write("site_title", body.siteTitle), Write("hero_image", body.heroImage),
                            Write("whatsapp_number", body.whatsappNumber);
    assert SettingsWrites(body) == w1 + (w2 + w3);
    RunAppend(start, table.policy, client, w1, w2 + w3);
    if body.siteTitle.Some? {
      var written := table.Upsert(client, Setting("site_title", body.siteTitle.value));
      if written.Failure? {
        return Response(BadRequest, ErrorJson(written.error));
      }
    }
    ghost var afterTitle := table.values;
    assert RunWrites(start, table.policy, client, w1) == Run(afterTitle, None);
    RunAppend(afterTitle, table.policy, client, w2, w3);
    if body.heroImage.Some? {
      var written := table.Upsert(client, Setting("hero_image", body.heroImage.value));
      if written.Failure? {
        return Response(BadRequest, ErrorJson(written.error));
      }
    }
    assert RunWrites(afterTitle, table.policy, client, w2) == Run(table.values, None);
    ghost var afterHero := table.values;
    if body.whatsappNumber.Some? {
      var written := table.Upsert(client, Setting("whatsapp_number", body.whatsappNumber.value));
      if written.Failure? {
        return Response(BadRequest, ErrorJson(written.error));
      }
    }
    assert RunWrites(afterHero, table.policy, client, w3) == Run(table.values, None);
    return Response(Ok, Done);
  }

  /** Running two lists of writes is running the first, then, unless it was
      refused, the second from where it left off. */
  lemma {:induction false} RunAppend(values: map<string, string>,
                      policy: (Auth.Client, Setting) -> Option<Storage.QueryError>,
                      client: Auth.Client, a: seq<Setting>, b: seq<Setting>)
    ensures var first := RunWrites(values, policy, client, a);
            RunWrites(values, policy, client, a + b)
            == if first.refused.Some? then first else RunWrites(first.values, policy, client, b)
    decreases |a|
  {
    if a == [] {
      assert a + b == b;
    } else {
      assert (a + b)[0] == a[0];
      assert (a + b)[1..] == a[1..] + b;
      if policy(client, a[0]).None? {
        RunAppend(values[a[0].key := a[0].value], policy, client, a[1..], b);
      }
    }
  }

  /** POST /api/settings with the middleware in front: an unauthenticated
      request is 401 and writes nothing; an authenticated one writes with the
      client that carries its token. */
  method PostSettingsRoute(request: Auth.Request, verify: string -> Auth.Verification,
                           table: Storage.SettingsTable, body: SettingsBody) returns (r: Response)
    modifies request, table
    ensures var d := Auth.Authenticate(request.authorization, verify);
            && (d.Unauthorized? ==> r == Response(401, ErrorJson(d.error)) && table.values == old(table.values))
            && (d.Authenticated? ==>
                 var run := RunWrites(old(table.values), table.policy, Auth.ClientFor(d.token), SettingsWrites(body));
                 table.values == run.values
                 && r == (if run.refused.Some? then Response(BadRequest, ErrorJson(run.refused.value)) else Response(Ok, Done)))
  {
    var outcome := request.RequireAuth(verify);
    if outcome.Respond? {
      return Response(outcome.status, ErrorJson(outcome.error));
    }
    r := PostSettings(table, request.supabaseClient.value, body);
  }
}
