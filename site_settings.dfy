/**
 * Site settings: typed values stored as text, and the read-only endpoints
 * that hand them out by key, by a list of keys, and by key prefix. Only
 * active settings are ever handed out.
 */
module SiteSettings {
  import opened Wrappers
  import opened Text

  /**
   * A setting. `kind` is the stored type name ("text", "textarea",
   * "image", "boolean" or "number"; "text" by default); `image` is the
   * stored file name, "" without one. Keys are unique in the table.
   */
  datatype Setting = Setting(
    id: nat, key: string, name: string, description: string, kind: string,
    value: string, image: string, isActive: bool)

  predicate UniqueKeys(settings: seq<Setting>) {
    forall i, j :: 0 <= i < j < |settings| ==> settings[i].key != settings[j].key
  }

  function KeySet(settings: seq<Setting>): set<string> {
    set s | s in settings :: s.key
  }

  /** Distinct keys: as many keys as settings. */
  lemma {:induction false} KeySetSize(settings: seq<Setting>)
    requires UniqueKeys(settings)
    ensures |KeySet(settings)| == |settings|
  {
    if settings != [] {
      var last := settings[|settings| - 1];
      var front := settings[..|settings| - 1];
      KeySetSize(front);
      assert settings == front + [last];
      assert KeySet(settings) == KeySet(front) + {last.key};
    }
  }

  // ---------------------------------------------------------------------
  // Typed values
  // ---------------------------------------------------------------------

  const MediaUrl := "/media/"

  /** The texts a boolean setting reads as true, compared after lower-casing. */
  const TrueWords := ["true", "1", "yes", "on"]

  /**
   * A typed value: a flag, a float, the integer 0 a number setting falls
   * back to, an image URL or nothing, or the stored text.
   */
  datatype SettingValue = Flag(b: bool) | Number(x: real) | IntZero | Url(url: Option<string>) | Raw(s: string)

  /** `get_value`: the stored text read according to the setting's type. */
  function GetValue(s: Setting): (r: SettingValue)
    ensures r.Flag? <==> s.kind == "boolean"
    ensures r.Number? || r.IntZero? <==> s.kind == "number"
    ensures r.Url? <==> s.kind == "image"
    ensures r.Raw? ==> r.s == s.value
    ensures r.Url? ==> (r.url.Some? <==> s.image != "")
  {
    if s.kind == "boolean" then Flag(Lower(s.value) in TrueWords)
    else if s.kind == "number" then
      match ParseDecimal(Strip(s.value))
      case Some(x) => Number(x)
      case None => IntZero
    else if s.kind == "image" then Url(if s.image != "" then Some(MediaUrl + s.image) else None)
    else Raw(s.value)
  }

  /** A boolean setting ignores case: "TRUE", "Yes" and "On" read as true. */
  lemma BooleanIgnoresCase(s: Setting)
    requires s.kind == "boolean"
    ensures GetValue(s) == GetValue(s.(value := Lower(s.value)))
    ensures GetValue(s).b <==> exists k :: 0 <= k < |TrueWords| && Lower(s.value) == TrueWords[k]
  {
    LowerIdempotent(s.value);
  }

  /** A number setting holding a whole number in decimal reads as that number; text that does not parse reads as 0. */
  lemma NumberValues(s: Setting, n: nat)
    requires s.kind == "number"
    ensures s.value == NatToString(n) ==> GetValue(s) == Number(n as real)
    ensures ParseDecimal(Strip(s.value)).None? ==> GetValue(s) == IntZero
  {
    if s.value == NatToString(n) {
      ParseNatLiteral(n);
      StripDigits(s.value);
    }
  }

  /** An image setting reads as the file's URL under the media root, or as nothing without a file. */
  lemma ImageValue(s: Setting)
    requires s.kind == "image"
    ensures s.image != "" ==> GetValue(s) == Url(Some(MediaUrl + s.image))
    ensures GetValue(s).url.Some? ==> MediaUrl <= GetValue(s).url.value
  {
  }

  // ---------------------------------------------------------------------
  // Representations
  // ---------------------------------------------------------------------

  /** The full representation of a setting. `image` and `image_url` both carry the URL. */
  datatype Detail = Detail(
    id: nat, key: string, name: string, description: string, kind: string,
    value: SettingValue, imageUrl: Option<string>, isActive: bool)

  function DetailOf(s: Setting): Detail {
    Detail(s.id, s.key, s.name, s.description, s.kind, GetValue(s),
           if s.image != "" then Some(MediaUrl + s.image) else None, s.isActive)
  }

  /** The short entry `list` gives when keys are asked for. */
  datatype Entry = Entry(value: SettingValue, name: string, kind: string, description: string)

  function EntryOf(s: Setting): Entry {
    Entry(GetValue(s), s.name, s.kind, s.description)
  }

  /** `{s.key: detail(s) for s in settings}`: a later setting with the same key wins. */
  function DetailsByKey(settings: seq<Setting>): (m: map<string, Detail>)
    ensures m.Keys == KeySet(settings)
  {
    if settings == [] then map[]
    else
      var front := settings[..|settings| - 1];
      var last := settings[|settings| - 1];
      assert settings == front + [last];
      DetailsByKey(front)[last.key := DetailOf(last)]
  }

  /** The same, filled by `list`: a later setting with the same key wins. */
  function EntriesByKey(settings: seq<Setting>): (m: map<string, Entry>)
    ensures m.Keys == KeySet(settings)
  {
    if settings == [] then map[]
    else
      var front := settings[..|settings| - 1];
      var last := settings[|settings| - 1];
      assert settings == front + [last];
      EntriesByKey(front)[last.key := EntryOf(last)]
  }

  /** With distinct keys, each setting is found under its own key. */
  lemma {:induction false} DetailsByKeyFind(settings: seq<Setting>)
    requires UniqueKeys(settings)
    ensures forall s :: s in settings ==> DetailsByKey(settings)[s.key] == DetailOf(s)
  {
    if settings != [] {
      var front := settings[..|settings| - 1];
      DetailsByKeyFind(front);
      forall s | s in settings
        ensures DetailsByKey(settings)[s.key] == DetailOf(s)
      {
        var j :| 0 <= j < |settings| && settings[j] == s;
        if j < |settings| - 1 {
          assert front[j] == s;
          assert s.key != settings[|settings| - 1].key;
        }
      }
    }
  }

  lemma {:induction false} EntriesByKeyFind(settings: seq<Setting>)
    requires UniqueKeys(settings)
    ensures forall s :: s in settings ==> EntriesByKey(settings)[s.key] == EntryOf(s)
  {
    if settings != [] {
      var front := settings[..|settings| - 1];
      EntriesByKeyFind(front);
      forall s | s in settings
        ensures EntriesByKey(settings)[s.key] == EntryOf(s)
      {
        var j :| 0 <= j < |settings| && settings[j] == s;
        if j < |settings| - 1 {
          assert front[j] == s;
          assert s.key != settings[|settings| - 1].key;
        }
      }
    }
  }

  // ---------------------------------------------------------------------
  // get_queryset and list
  // ---------------------------------------------------------------------

  /** Query parameters; an absent one reads as "". */
  type Params = map<string, string>

  function Param(params: Params, name: string): string {
    if name in params then params[name] else ""
  }

  /** The `keys` parameter: split on ',', each part trimmed. */
  function KeysOf(param: string): (keys: seq<string>)
    ensures |keys| == |Split(param, ',')|
    ensures forall k :: 0 <= k < |keys| ==> ',' !in keys[k] && keys[k] == Strip(Split(param, ',')[k])
  {
    var parts := Split(param, ',');
    seq(|parts|, i requires 0 <= i < |parts| =>
      var p := Strip(parts[i]);
      assert p == parts[i][LeadingSpaces(parts[i])..LeadingSpaces(parts[i]) + |p|];
      p)
  }

  /** Whether `get_queryset` keeps a setting: active, among the `keys` if given, and equal to `key` if given. */
  predicate Selected(s: Setting, params: Params) {
    && s.isActive
    && (Param(params, "keys") != "" ==> s.key in KeysOf(Param(params, "keys")))
    && (Param(params, "key") != "" ==> s.key == Param(params, "key"))
  }

  /** `get_queryset`: the selected settings, in table order. */
  function Queryset(settings: seq<Setting>, params: Params): (r: seq<Setting>)
    ensures |r| <= |settings|
    ensures forall s :: s in r <==> s in settings && Selected(s, params)
    ensures UniqueKeys(settings) ==> UniqueKeys(r)
  {
    if settings == [] then []
    else
      var rest := Queryset(settings[1..], params);
      assert forall k :: 1 <= k < |settings| ==> settings[k] == settings[1..][k - 1];
      if Selected(settings[0], params) then
        assert UniqueKeys(settings) ==> forall s :: s in rest ==> s.key != settings[0].key by {
          if UniqueKeys(settings) {
            forall s | s in rest
              ensures s.key != settings[0].key
            {
              var j :| 0 <= j < |settings[1..]| && settings[1..][j] == s;
              assert settings[j + 1] == s;
            }
          }
        }
        [settings[0]] + rest
      else rest
  }

  /** Every key handed out by `get_queryset` belongs to an active setting that matches the request. */
  lemma QuerysetOnlyActive(settings: seq<Setting>, params: Params)
    ensures forall s :: s in Queryset(settings, params) ==> s.isActive
    ensures Param(params, "keys") == "" && Param(params, "key") == "" ==>
              forall s :: s in settings ==> (s in Queryset(settings, params) <==> s.isActive)
    ensures Param(params, "key") != "" ==>
              forall s :: s in Queryset(settings, params) ==> s.key == Param(params, "key")
  {
  }

  datatype ListResponse = Keyed(data: map<string, Entry>) | Details(items: seq<Detail>)

  /**
   * `list`: with `keys` or `key` asked for, the short entries by key,
   * filled setting by setting; otherwise the full representation of every
   * selected setting, in order.
   */
  method List(settings: seq<Setting>, params: Params) returns (r: ListResponse)
    ensures r.Keyed? <==> Param(params, "keys") != "" || Param(params, "key") != ""
    ensures r.Keyed? ==> r.data.Keys == KeySet(Queryset(settings, params))
    ensures r.Keyed? && UniqueKeys(settings) ==>
              forall s :: s in Queryset(settings, params) ==> r.data[s.key] == EntryOf(s)
    ensures r.Details? ==>
              |r.items| == |Queryset(settings, params)|
              && forall i :: 0 <= i < |r.items| ==> r.items[i] == DetailOf(Queryset(settings, params)[i])
  {
    var queryset := Queryset(settings, params);
    if Param(params, "keys") != "" || Param(params, "key") != "" {
      var data := map[];
      var i := 0;
      while i < |queryset|
        invariant i <= |queryset|
        invariant data == EntriesByKey(queryset[..i])
      {
        assert queryset[..i + 1][..i] == queryset[..i];
        data := data[queryset[i].key := EntryOf(queryset[i])];
        i := i + 1;
      }
      assert queryset[..i] == queryset;
      if UniqueKeys(settings) {
        EntriesByKeyFind(queryset);
      }
      r := Keyed(data);
    } else {
      r := Details(seq(|queryset|, i requires 0 <= i < |queryset| => DetailOf(queryset[i])));
    }
  }

  // ---------------------------------------------------------------------
  // bulk
  // ---------------------------------------------------------------------

  /** The body of a bulk request: a list of keys and a single key, either may be absent. */
  datatype BulkRequest = BulkRequest(keys: Option<seq<string>>, key: Option<string>)

  datatype BulkError = KeysEmpty | KeyBlank | KeyTooLong | NeitherGiven

  /** A key as a text field accepts it: not blank once trimmed, and at most 100 characters. */
  predicate KeyOk(k: string) {
    Strip(k) != "" && |Strip(k)| <= 100
  }

  /** Why a key is refused. */
  function KeyError(k: string): BulkError {
    if Strip(k) == "" then KeyBlank else KeyTooLong
  }

  /** A single key checked: its trimmed text, or why it is refused. */
  function CheckKey(k: string): (r: Result<string, BulkError>)
    ensures r.Ok? <==> KeyOk(k)
    ensures r.Ok? ==> r.value == Strip(k)
  {
    if KeyOk(k) then Ok(Strip(k)) else Err(KeyError(k))
  }

  /** Each key of the list checked in turn; the first refused one decides the error. */
  function CheckKeys(keys: seq<string>): (r: Result<seq<string>, BulkError>)
    ensures r.Ok? <==> forall k :: 0 <= k < |keys| ==> KeyOk(keys[k])
    ensures r.Ok? ==> |r.value| == |keys| && forall k :: 0 <= k < |keys| ==> r.value[k] == Strip(keys[k])
  {
    if keys == [] then Ok([])
    else if !KeyOk(keys[0]) then Err(KeyError(keys[0]))
    else
      var rest := CheckKeys(keys[1..]);
      assert forall k :: 1 <= k < |keys| ==> keys[k] == keys[1..][k - 1];
      if rest.Err? then rest
      else Ok([Strip(keys[0])] + rest.value)
  }

  /**
   * The bulk request's checks: a `keys` list must be non-empty and hold
   * valid keys, a `key` must be valid, and at least one of them must be
   * given. The checked values are trimmed.
   */
  function ValidateBulk(req: BulkRequest): (r: Result<BulkRequest, BulkError>)
    ensures req.keys.None? && req.key.None? ==> r == Err(NeitherGiven)
    ensures req.keys.Some? && req.keys.value == [] ==> r == Err(KeysEmpty)
    ensures r.Ok? ==> (r.value.keys.Some? && r.value.keys.value != []) || (r.value.key.Some? && r.value.key.value != "")
    ensures r.Ok? ==> r.value.keys.Some? == req.keys.Some? && r.value.key.Some? == req.key.Some?
  {
    var keys := match req.keys
      case None => Ok(None)
      case Some(ks) =>
        if ks == [] then Err(KeysEmpty)
        else
          match CheckKeys(ks)
          case Err(e) => Err(e)
          case Ok(v) => Ok(Some(v));
    var key := match req.key
      case None => Ok(None)
      case Some(k) =>
        match CheckKey(k)
        case Err(e) => Err(e)
        case Ok(v) => Ok(Some(v));
    if keys.Err? then Err(keys.error)
    else if key.Err? then Err(key.error)
    else
      var data := BulkRequest(keys.value, key.value);
      if !(data.keys.Some? && data.keys.value != []) && !(data.key.Some? && data.key.value != "") then Err(NeitherGiven)
      else Ok(data)
  }

  /** `get_keys_list`: the list of keys when given, else the single key, else nothing. */
  function KeysList(data: BulkRequest): (keys: seq<string>)
    ensures data.keys.Some? && data.keys.value != [] ==> keys == data.keys.value
    ensures !(data.keys.Some? && data.keys.value != []) && data.key.Some? && data.key.value != "" ==> keys == [data.key.value]
    ensures !(data.keys.Some? && data.keys.value != []) && !(data.key.Some? && data.key.value != "") ==> keys == []
  {
    if data.keys.Some? && data.keys.value != [] then data.keys.value
    else if data.key.Some? && data.key.value != "" then [data.key.value]
    else []
  }

  /** A request that passes its checks always asks for at least one key. */
  lemma ValidatedAsksForKeys(req: BulkRequest)
    requires ValidateBulk(req).Ok?
    ensures KeysList(ValidateBulk(req).value) != []
  {
  }

  /** The active settings whose key is asked for. */
  function Wanted(settings: seq<Setting>, keys: seq<string>): (r: seq<Setting>)
    ensures forall s :: s in r <==> s in settings && s.isActive && s.key in keys
  {
    if settings == [] then []
    else
      var rest := Wanted(settings[1..], keys);
      assert forall k :: 1 <= k < |settings| ==> settings[k] == settings[1..][k - 1];
      if settings[0].isActive && settings[0].key in keys then [settings[0]] + rest else rest
  }

  /** What `bulk` answers: the details by key, the keys found, and the keys not found (`None` when all were). */
  datatype BulkResult = BulkResult(data: map<string, Detail>, found: set<string>, notFound: Option<set<string>>)

  function Bulk(settings: seq<Setting>, keys: seq<string>): BulkResult {
    var matches := Wanted(settings, keys);
    var found := KeySet(matches);
    var missing := (set k | k in keys) - found;
    BulkResult(DetailsByKey(matches), found, if missing == {} then None else Some(missing))
  }

  /**
   * The keys asked for split into found and not found: the two sets are
   * disjoint and together make up the request, `not_found` is absent
   * exactly when everything was found, and a key is found exactly when an
   * active setting has it.
   */
  lemma BulkPartition(settings: seq<Setting>, keys: seq<string>)
    ensures var r := Bulk(settings, keys);
            var notFound := r.notFound.GetOr({});
            && r.found !! notFound
            && r.found + notFound == set k | k in keys
            && (r.notFound.Some? ==> r.notFound.value != {})
            && (forall k :: k in r.found <==> k in keys && exists s :: s in settings && s.isActive && s.key == k)
            && r.data.Keys == r.found
  {
  }

  /** The bulk endpoint: 400 on a request that fails its checks. */
  function BulkView(settings: seq<Setting>, req: BulkRequest): (r: Result<BulkResult, BulkError>)
    ensures r.Err? <==> ValidateBulk(req).Err?
    ensures r.Ok? ==> r.value == Bulk(settings, KeysList(ValidateBulk(req).value))
  {
    match ValidateBulk(req)
    case Err(e) => Err(e)
    case Ok(data) => Ok(Bulk(settings, KeysList(data)))
  }

  // ---------------------------------------------------------------------
  // by_key and group
  // ---------------------------------------------------------------------

  datatype KeyResponse = KeyRequired | KeyNotFound | KeyFound(detail: Detail)

  /** The first active setting with the key. */
  function ActiveWithKey(settings: seq<Setting>, key: string): (r: Option<Setting>)
    ensures r.Some? ==> r.value in settings && r.value.isActive && r.value.key == key
    ensures r.None? ==> forall s :: s in settings ==> !(s.isActive && s.key == key)
  {
    if settings == [] then None
    else if settings[0].isActive && settings[0].key == key then Some(settings[0])
    else
      assert forall k :: 1 <= k < |settings| ==> settings[k] == settings[1..][k - 1];
      ActiveWithKey(settings[1..], key)
  }

  /**
   * `by_key`: the key comes from the query on GET and from the body on
   * POST; without one, 400; without an active setting for it, 404;
   * otherwise that setting's full representation.
   */
  function ByKey(settings: seq<Setting>, key: Option<string>): (r: KeyResponse)
    ensures r == KeyRequired <==> key.None? || key.value == ""
    ensures r.KeyFound? ==> exists s :: s in settings && s.isActive && s.key == key.value && r.detail == DetailOf(s)
    ensures r == KeyNotFound <==> key.Some? && key.value != "" && forall s :: s in settings ==> !(s.isActive && s.key == key.value)
  {
    if key.None? || key.value == "" then KeyRequired
    else
      match ActiveWithKey(settings, key.value)
      case None => KeyNotFound
      case Some(s) => KeyFound(DetailOf(s))
  }

  datatype GroupResponse = PrefixRequired | Group(prefix: string, count: nat, settings: map<string, Detail>)

  /** The active settings whose key starts with the prefix, in table order. */
  function WithPrefix(settings: seq<Setting>, prefix: string): (r: seq<Setting>)
    ensures forall s :: s in r <==> s in settings && s.isActive && prefix <= s.key
    ensures UniqueKeys(settings) ==> UniqueKeys(r)
  {
    if settings == [] then []
    else
      var rest := WithPrefix(settings[1..], prefix);
      assert forall k :: 1 <= k < |settings| ==> settings[k] == settings[1..][k - 1];
      if settings[0].isActive && prefix <= settings[0].key then
        assert UniqueKeys(settings) ==> forall s :: s in rest ==> s.key != settings[0].key by {
          if UniqueKeys(settings) {
            forall s | s in rest
              ensures s.key != settings[0].key
            {
              var j :| 0 <= j < |settings[1..]| && settings[1..][j] == s;
              assert settings[j + 1] == s;
            }
          }
        }
        [settings[0]] + rest
      else rest
  }

  /** `group`: without a prefix, 400; otherwise the matching settings by key and how many there are. */
  function GroupView(settings: seq<Setting>, prefix: Option<string>): (r: GroupResponse)
    ensures r == PrefixRequired <==> prefix.None? || prefix.value == ""
  {
    if prefix.None? || prefix.value == "" then PrefixRequired
    else
      var matches := WithPrefix(settings, prefix.value);
      Group(prefix.value, |matches|, DetailsByKey(matches))
  }

  /**
   * Every setting `group` hands out is active and has the prefix, every
   * such setting is handed out, and the count is the number of settings
   * handed out.
   */
  lemma GroupContents(settings: seq<Setting>, prefix: string)
    requires prefix != "" && UniqueKeys(settings)
    ensures var r := GroupView(settings, Some(prefix));
            && r.Group? && r.prefix == prefix
            && (forall k :: k in r.settings ==> prefix <= k && r.settings[k].isActive && r.settings[k].key == k)
            && (forall s :: s in settings && s.isActive && prefix <= s.key ==>
                  s.key in r.settings && r.settings[s.key] == DetailOf(s))
            && r.count == |r.settings|
  {
    var matches := WithPrefix(settings, prefix);
    DetailsByKeyFind(matches);
    KeySetSize(matches);
    forall k | k in DetailsByKey(matches)
      ensures prefix <= k && DetailsByKey(matches)[k].isActive && DetailsByKey(matches)[k].key == k
    {
      var s :| s in matches && s.key == k;
    }
  }
}
