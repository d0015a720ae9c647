/** Backup export and restore over the app's key-value store. Stored values
    and the backup document are JSON values. */
module Backup {
  import opened Wrappers

  /** A parsed JSON value (numbers are exact; JSON has no NaN). */
  datatype Json =
    | JNull
    | JBool(b: bool)
    | JNum(n: real)
    | JStr(s: string)
    | JArray(items: seq<Json>)
    | JObject(fields: map<string, Json>)

  const WorkDaysKey: string := "workDays"
  const DailyRateKey: string := "dailyRate"
  const ExpensesKey: string := "expenses"
  const ExportedAtKey: string := "exportedAt"

  /** The rate export falls back to; the screens fall back to 80 instead. */
  const ExportDefaultRate: real := 220.0
  const ScreenDefaultRate: real := 80.0

  /** JavaScript truthiness of a JSON value. */
  predicate Truthy(v: Json)
  {
    match v
    case JNull => false
    case JBool(b) => b
    case JNum(n) => n != 0.0
    case JStr(s) => s != ""
    case JArray(_) => true
    case JObject(_) => true
  }

  /** `(await loadData(key)) ?? fallback`: a missing key and a stored null both
      give the fallback. */
  function LoadOr(store: map<string, Json>, key: string, fallback: Json): (v: Json)
    ensures key in store && store[key] != JNull ==> v == store[key]
    ensures key !in store || store[key] == JNull ==> v == fallback
  {
    if key in store && store[key] != JNull then store[key] else fallback
  }

  function DigitChar(n: nat): char
    requires n < 10
  {
    "0123456789"[n]
  }

  /** The decimal text of an array index. */
  function IndexName(n: nat): string
  {
    if n < 10 then [DigitChar(n)] else IndexName(n / 10) + [DigitChar(n % 10)]
  }

  function ArrayEntries(items: seq<Json>): map<string, Json>
  {
    if items == [] then map[]
    else ArrayEntries(items[..|items| - 1])[IndexName(|items| - 1) := items[|items| - 1]]
  }

  function StringEntries(s: string): map<string, Json>
  {
    if s == [] then map[]
    else StringEntries(s[..|s| - 1])[IndexName(|s| - 1) := JStr([s[|s| - 1]])]
  }

  /** `Object.entries(v)`, as a map from property name to value: an object's
      fields, an array's or a string's indices, nothing for other values. */
  function Entries(v: Json): map<string, Json>
  {
    match v
    case JObject(f) => f
    case JArray(items) => ArrayEntries(items)
    case JStr(s) => StringEntries(s)
    case _ => map[]
  }

  /** What the export's `reduce` builds: the names whose values are truthy,
      each mapped to true. */
  function TrueOnly(entries: map<string, Json>): (r: map<string, bool>)
    ensures forall d :: d in r <==> d in entries && Truthy(entries[d])
    ensures forall d :: d in r ==> r[d]
  {
    map d | d in entries && Truthy(entries[d]) :: true
  }

  /** The `reduce` itself: visits the entries in an unspecified order and sets
      `acc[date] = true` for each truthy one. */
  method FilterWorkDays(entries: map<string, Json>) returns (acc: map<string, bool>)
    ensures acc == TrueOnly(entries)
  {
    acc := map[];
    var pending := entries.Keys;
    while pending != {}
      invariant pending <= entries.Keys
      invariant forall d :: d in acc <==> d in entries && d !in pending && Truthy(entries[d])
      invariant forall d :: d in acc ==> acc[d]
      decreases |pending|
    {
      var d :| d in pending;
      if Truthy(entries[d]) {
        acc := acc[d := true];
      }
      pending := pending - {d};
    }
  }

  /** A worked-day map as the JSON object it is stored as. */
  function BoolsJson(m: map<string, bool>): Json
  {
    JObject(map d | d in m :: JBool(m[d]))
  }

  /** The filter only removes names. */
  lemma TrueOnlyDomain(entries: map<string, Json>)
    ensures TrueOnly(entries).Keys <= entries.Keys
  {
  }

  /** Filtering what the filter produced changes nothing. */
  lemma TrueOnlyIdempotent(entries: map<string, Json>)
    ensures TrueOnly(Entries(BoolsJson(TrueOnly(entries)))) == TrueOnly(entries)
  {
  }

  /** On a worked-day map the filter keeps exactly the true dates. */
  lemma TrueOnlyOfWorkDays(m: map<string, bool>)
    ensures TrueOnly(Entries(BoolsJson(m))) == map d | d in m && m[d] :: true
  {
  }

  datatype BackupDocument = BackupDocument(exportedAt: string, dailyRate: Json, workDays: map<string, bool>, expenses: Json)

  /** The document `exportBackup` builds from the store (the time stamp is a
      parameter): stored rate or 220, the truthy work days, stored expenses or
      an empty list. */
  function BackupOf(store: map<string, Json>, exportedAt: string): (doc: BackupDocument)
    ensures doc.exportedAt == exportedAt
    ensures doc.workDays.Keys <= Entries(LoadOr(store, WorkDaysKey, JObject(map[]))).Keys
  {
    BackupDocument(
      exportedAt,
      LoadOr(store, DailyRateKey, JNum(ExportDefaultRate)),
      TrueOnly(Entries(LoadOr(store, WorkDaysKey, JObject(map[])))),
      LoadOr(store, ExpensesKey, JArray([])))
  }

  /** An empty store exports rate 220, no work days and no expenses. */
  lemma EmptyStoreDefaults(exportedAt: string)
    ensures BackupOf(map[], exportedAt) == BackupDocument(exportedAt, JNum(220.0), map[], JArray([]))
  {
  }

  /** The document's JSON value, which writing and reading the file return. */
  function DocumentJson(doc: BackupDocument): Json
  {
    JObject(map[ExportedAtKey := JStr(doc.exportedAt), DailyRateKey := doc.dailyRate,
                WorkDaysKey := BoolsJson(doc.workDays), ExpensesKey := doc.expenses])
  }

  /** `typeof`, with None standing for `undefined`. */
  function TypeOf(v: Option<Json>): string
  {
    match v
    case None => "undefined"
    case Some(JBool(_)) => "boolean"
    case Some(JNum(_)) => "number"
    case Some(JStr(_)) => "string"
    case Some(_) => "object"
  }

  /** Reading property `key` of a parsed value: only objects have the three
      named properties. */
  function Property(v: Json, key: string): Option<Json>
  {
    if v.JObject? && key in v.fields then Some(v.fields[key]) else None
  }

  predicate IsArray(v: Option<Json>)
  {
    v.Some? && v.value.JArray?
  }

  /** The two errors restore throws: "Invalid backup format" and
      "Missing or invalid fields in backup". */
  datatype RestoreError = InvalidFormat | InvalidFields

  /** The three values restore writes. */
  datatype Restored = Restored(dailyRate: Json, workDays: Json, expenses: Json)

  /** `restoreBackup`'s checks on the parsed document. */
  function Validate(data: Json): (r: Result<Restored, RestoreError>)
    ensures r == Err(InvalidFormat) <==> !data.JObject? && !data.JArray?
    ensures data.JArray? ==> r == Err(InvalidFields)
    ensures r.Ok? <==>
      && data.JObject?
      && IsArray(Property(data, ExpensesKey))
      && Property(data, DailyRateKey).Some? && Property(data, DailyRateKey).value.JNum?
      && Property(data, WorkDaysKey).Some?
      && (Property(data, WorkDaysKey).value.JObject? || Property(data, WorkDaysKey).value.JArray?
          || Property(data, WorkDaysKey).value.JNull?)
    ensures r.Ok? ==> r.value == Restored(data.fields[DailyRateKey], data.fields[WorkDaysKey], data.fields[ExpensesKey])
  {
    if !Truthy(data) || TypeOf(Some(data)) != "object" then
      Err(InvalidFormat)
    else
      var rate, days, expenses := Property(data, DailyRateKey), Property(data, WorkDaysKey), Property(data, ExpensesKey);
      if TypeOf(rate) != "number" || TypeOf(days) != "object" || !IsArray(expenses) then
        Err(InvalidFields)
      else
        Ok(Restored(rate.value, days.value, expenses.value))
  }

  /** The store after a successful restore: the three keys and nothing else. */
  function RestoredStore(v: Restored): (s: map<string, Json>)
    ensures s.Keys == {DailyRateKey, WorkDaysKey, ExpensesKey}
    ensures s[DailyRateKey] == v.dailyRate && s[WorkDaysKey] == v.workDays && s[ExpensesKey] == v.expenses
  {
    map[DailyRateKey := v.dailyRate, WorkDaysKey := v.workDays, ExpensesKey := v.expenses]
  }

  datatype RestoreOutcome = Cancelled | Done | Failed(error: RestoreError)

  predicate ExportableRate(store: map<string, Json>)
  {
    LoadOr(store, DailyRateKey, JNum(ExportDefaultRate)).JNum?
  }

  predicate ExportableExpenses(store: map<string, Json>)
  {
    LoadOr(store, ExpensesKey, JArray([])).JArray?
  }

  /** Restoring an exported document writes back the same rate, the truthy
      work days as true, and the identical expense list. */
  lemma RoundTrip(store: map<string, Json>, exportedAt: string)
    requires ExportableRate(store) && ExportableExpenses(store)
    ensures var doc := BackupOf(store, exportedAt);
      Validate(DocumentJson(doc)) == Ok(Restored(doc.dailyRate, BoolsJson(doc.workDays), doc.expenses))
    ensures var restored := RestoredStore(Validate(DocumentJson(BackupOf(store, exportedAt))).value);
      && restored[DailyRateKey] == LoadOr(store, DailyRateKey, JNum(ExportDefaultRate))
      && restored[WorkDaysKey] == BoolsJson(TrueOnly(Entries(LoadOr(store, WorkDaysKey, JObject(map[])))))
      && restored[ExpensesKey] == LoadOr(store, ExpensesKey, JArray([]))
  {
  }

  /** The round trip on the app's own state: a worked-day map, a numeric rate
      and an expense list come back as the true days, the same rate and the
      same list; every other key (such as netPercent) is gone. */
  lemma RoundTripOfAppState(m: map<string, bool>, rate: real, expenses: seq<Json>, others: map<string, Json>, exportedAt: string)
    ensures var store := others[WorkDaysKey := BoolsJson(m)][DailyRateKey := JNum(rate)][ExpensesKey := JArray(expenses)];
      var r := Validate(DocumentJson(BackupOf(store, exportedAt)));
      r.Ok? && RestoredStore(r.value) ==
        map[DailyRateKey := JNum(rate), WorkDaysKey := BoolsJson(map d | d in m && m[d] :: true),
            ExpensesKey := JArray(expenses)]
  {
    var store := others[WorkDaysKey := BoolsJson(m)][DailyRateKey := JNum(rate)][ExpensesKey := JArray(expenses)];
    RoundTrip(store, exportedAt);
    TrueOnlyOfWorkDays(m);
  }

  /** A store without a saved rate shows 80 on the screens; export writes 220
      in its place and restore saves it, so afterwards the screens show 220. */
  lemma DefaultRateAfterRoundTrip(store: map<string, Json>, exportedAt: string)
    requires DailyRateKey !in store && ExportableExpenses(store)
    ensures LoadOr(store, DailyRateKey, JNum(ScreenDefaultRate)) == JNum(80.0)
    ensures var r := Validate(DocumentJson(BackupOf(store, exportedAt)));
      r.Ok? && LoadOr(RestoredStore(r.value), DailyRateKey, JNum(ScreenDefaultRate)) == JNum(220.0)
  {
  }

  /** A work-days field that is null or an array passes the object check. */
  lemma NullOrArrayWorkDaysAccepted(rate: real, days: Json, expenses: seq<Json>)
    requires days == JNull || days.JArray?
    ensures Validate(JObject(map[DailyRateKey := JNum(rate), WorkDaysKey := days, ExpensesKey := JArray(expenses)])).Ok?
  {
  }

  /** The persisted key-value store (AsyncStorage). */
  class Store {
    var entries: map<string, Json>

    constructor (initial: map<string, Json>)
      ensures entries == initial
    {
      entries := initial;
    }

    /** `clearAllData`. */
    method ClearAll()
      modifies this
      ensures entries == map[]
    {
      entries := map[];
    }

    /** `saveData(key, value)`. */
    method Save(key: string, value: Json)
      modifies this
      ensures entries == old(entries)[key := value]
    {
      entries := entries[key := value];
    }

    /** `exportBackup` up to writing the file: loads with defaults, filters the
        work days, builds the document. */
    method Export(exportedAt: string) returns (doc: BackupDocument)
      ensures doc == BackupOf(entries, exportedAt)
    {
      var workDays := LoadOr(entries, WorkDaysKey, JObject(map[]));
      var dailyRate := LoadOr(entries, DailyRateKey, JNum(ExportDefaultRate));
      var expenses := LoadOr(entries, ExpensesKey, JArray([]));
      var filtered := FilterWorkDays(Entries(workDays));
      doc := BackupDocument(exportedAt, dailyRate, filtered, expenses);
    }

    /** `restoreBackup` after the file was picked and parsed (None: the pick
        was cancelled). Every check comes before the store is cleared. */
    method Restore(picked: Option<Json>) returns (outcome: RestoreOutcome)
      modifies this
      ensures picked.None? ==> outcome == Cancelled && entries == old(entries)
      ensures picked.Some? && Validate(picked.value).Err? ==>
        outcome == Failed(Validate(picked.value).error) && entries == old(entries)
      ensures picked.Some? && Validate(picked.value).Ok? ==>
        outcome == Done && entries == RestoredStore(Validate(picked.value).value)
    {
      if picked.None? {
        return Cancelled;
      }
      var checked := Validate(picked.value);
      if checked.Err? {
        return Failed(checked.error);
      }
      var values := checked.value;
      ClearAll();
      Save(DailyRateKey, values.dailyRate);
      Save(WorkDaysKey, values.workDays);
      Save(ExpensesKey, values.expenses);
      outcome := Done;
    }
  }
}
