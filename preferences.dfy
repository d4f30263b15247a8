/**
 * The qBittorrent preferences as the cycle sees them: the JSON object returned
 * by `GET /api/v2/app/preferences`, the three fields the cycle extracts from it
 * (main.go:203-220), and the read-modify-write of one key that
 * `updateAnnouncePort` and `updateAnnounceIP` perform before posting the whole
 * object back (main.go:251-343).
 *
 * HTTP, basic authentication and JSON/URL encoding are not modelled: a request
 * and its decoding together yield a `Fetch`, and a POST yields whether it
 * returned without error.
 */
module Preferences {
  import opened Wrappers

  /** A decoded JSON value; numbers are taken to be naturals. */
  datatype Json =
    | JNull
    | JBool(b: bool)
    | JNumber(n: nat)
    | JString(s: string)
    | JArray(items: seq<Json>)
    | JObject(fields: map<string, Json>)

  /** The preferences object, decoded into `map[string]interface{}`. */
  type Document = map<string, Json>

  const AnnounceIPKey: string := "announce_ip"
  const AnnouncePortKey: string := "announce_port"
  const ListenPortKey: string := "listen_port"

  /** The outcome of a GET of the preferences: the decoded object, or a request or decoding error. */
  datatype Fetch = Fetched(doc: Document) | FetchFailed

  /** The three values `getCurrentPreferences` returns. */
  datatype Snapshot = Snapshot(announceIP: string, announcePort: nat, listenPort: nat)

  /**
   * RequestFailed: the request or the decoding failed;
   * BadAnnounceIP: "announce_ip not found or invalid type";
   * BadAnnouncePort: "announce_port not found or invalid type";
   * BadListenPort: "listen_port not found or invalid type".
   */
  datatype PrefsError = RequestFailed | BadAnnounceIP | BadAnnouncePort | BadListenPort

  /** The type assertion `prefs[key].(string)` succeeds. */
  predicate HasString(doc: Document, key: string) {
    key in doc && doc[key].JString?
  }

  /** The type assertion `prefs[key].(float64)` succeeds. */
  predicate HasNumber(doc: Document, key: string) {
    key in doc && doc[key].JNumber?
  }

  /**
   * `getCurrentPreferences` after the request: announce_ip must hold a string,
   * then announce_port and listen_port numbers. The first field that fails
   * decides the error, and an error carries no partial result.
   */
  function CurrentPreferences(f: Fetch): (r: Result<Snapshot, PrefsError>)
    ensures r == Err(RequestFailed) <==> f.FetchFailed?
    ensures r == Err(BadAnnounceIP) <==> f.Fetched? && !HasString(f.doc, AnnounceIPKey)
    ensures r == Err(BadAnnouncePort) <==>
              f.Fetched? && HasString(f.doc, AnnounceIPKey) && !HasNumber(f.doc, AnnouncePortKey)
    ensures r == Err(BadListenPort) <==>
              f.Fetched? && HasString(f.doc, AnnounceIPKey) && HasNumber(f.doc, AnnouncePortKey) &&
              !HasNumber(f.doc, ListenPortKey)
    ensures r.Ok? <==>
              f.Fetched? && HasString(f.doc, AnnounceIPKey) && HasNumber(f.doc, AnnouncePortKey) &&
              HasNumber(f.doc, ListenPortKey)
    ensures r.Ok? ==>
              JString(r.value.announceIP) == f.doc[AnnounceIPKey] &&
              JNumber(r.value.announcePort) == f.doc[AnnouncePortKey] &&
              JNumber(r.value.listenPort) == f.doc[ListenPortKey]
  {
    match f
    case FetchFailed => Err(RequestFailed)
    case Fetched(prefs) =>
      if !HasString(prefs, AnnounceIPKey) then Err(BadAnnounceIP)
      else if !HasNumber(prefs, AnnouncePortKey) then Err(BadAnnouncePort)
      else if !HasNumber(prefs, ListenPortKey) then Err(BadListenPort)
      else Ok(Snapshot(prefs[AnnounceIPKey].s, prefs[AnnouncePortKey].n, prefs[ListenPortKey].n))
  }

  /** Two documents that agree on a key: both lack it, or both hold the same value. */
  predicate SameAt(d1: Document, d2: Document, key: string) {
    (key in d1 <==> key in d2) && (key in d1 ==> d1[key] == d2[key])
  }

  /** Extraction looks at the three fields and at nothing else in the document. */
  lemma CurrentPreferencesReadsThreeFields(d1: Document, d2: Document)
    requires SameAt(d1, d2, AnnounceIPKey) && SameAt(d1, d2, AnnouncePortKey) && SameAt(d1, d2, ListenPortKey)
    ensures CurrentPreferences(Fetched(d1)) == CurrentPreferences(Fetched(d2))
  {
    assert HasString(d1, AnnounceIPKey) == HasString(d2, AnnounceIPKey);
    assert HasNumber(d1, AnnouncePortKey) == HasNumber(d2, AnnouncePortKey);
    assert HasNumber(d1, ListenPortKey) == HasNumber(d2, ListenPortKey);
  }

  // ------------------------------------------------------------ the update

  /**
   * after is before with key set to value: the key is present with that value,
   * no key is added besides it, and every other key keeps its value.
   */
  predicate SingleKeyUpdate(before: Document, after: Document, key: string, value: Json) {
    && key in after && after[key] == value
    && after.Keys == before.Keys + {key}
    && forall k :: k in before && k != key ==> k in after && after[k] == before[k]
  }

  /** The description above singles out one document: the map assignment. */
  lemma SingleKeyUpdateIsAssignment(before: Document, after: Document, key: string, value: Json)
    ensures SingleKeyUpdate(before, after, key, value) <==> after == before[key := value]
  {
    if SingleKeyUpdate(before, after, key, value) {
      forall k | k in after ensures after[k] == before[key := value][k] {
        if k != key {
          assert k in before;
        }
      }
    }
  }

  /**
   * The read-modify-write both update functions share: the preferences are
   * read again, the key is set in the decoded map, and the whole map is posted.
   * A failed read ends the update before anything is posted (payload None);
   * otherwise payload is what is posted, and ok reports that the POST returned
   * without error. The response status is not looked at.
   */
  method UpdatePreference(key: string, value: Json, read: Fetch, posted: bool)
    returns (payload: Option<Document>, ok: bool)
    ensures payload.None? <==> read.FetchFailed?
    ensures payload.Some? ==> SingleKeyUpdate(read.doc, payload.value, key, value)
    ensures ok <==> payload.Some? && posted
  {
    if read.FetchFailed? {
      return None, false;
    }
    var prefs := read.doc;
    prefs := prefs[key := value];
    payload := Some(prefs);
    ok := posted;
    SingleKeyUpdateIsAssignment(read.doc, prefs, key, value);
  }

  /** `updateAnnouncePort`: announce_port set to the port, every other preference posted back unchanged. */
  method UpdateAnnouncePort(port: nat, read: Fetch, posted: bool) returns (payload: Option<Document>, ok: bool)
    ensures payload.None? <==> read.FetchFailed?
    ensures payload.Some? ==> SingleKeyUpdate(read.doc, payload.value, AnnouncePortKey, JNumber(port))
    ensures ok <==> payload.Some? && posted
  {
    payload, ok := UpdatePreference(AnnouncePortKey, JNumber(port), read, posted);
  }

  /** `updateAnnounceIP`: announce_ip set to the address, every other preference posted back unchanged. */
  method UpdateAnnounceIP(ip: string, read: Fetch, posted: bool) returns (payload: Option<Document>, ok: bool)
    ensures payload.None? <==> read.FetchFailed?
    ensures payload.Some? ==> SingleKeyUpdate(read.doc, payload.value, AnnounceIPKey, JString(ip))
    ensures ok <==> payload.Some? && posted
  {
    payload, ok := UpdatePreference(AnnounceIPKey, JString(ip), read, posted);
  }

  /**
   * Reading back a document whose announce_port was set: the new port is
   * extracted, the other two fields as before, and the request can now fail
   * only on announce_ip or listen_port.
   */
  lemma ExtractAfterPortUpdate(before: Document, after: Document, port: nat)
    requires SingleKeyUpdate(before, after, AnnouncePortKey, JNumber(port))
    ensures CurrentPreferences(Fetched(after)) ==
              if !HasString(before, AnnounceIPKey) then Err(BadAnnounceIP)
              else if !HasNumber(before, ListenPortKey) then Err(BadListenPort)
              else Ok(Snapshot(before[AnnounceIPKey].s, port, before[ListenPortKey].n))
  {
    assert SameAt(before, after, AnnounceIPKey);
    assert SameAt(before, after, ListenPortKey);
  }

  /** Reading back a document whose announce_ip was set: the new address is extracted. */
  lemma ExtractAfterIPUpdate(before: Document, after: Document, ip: string)
    requires SingleKeyUpdate(before, after, AnnounceIPKey, JString(ip))
    ensures CurrentPreferences(Fetched(after)) ==
              if !HasNumber(before, AnnouncePortKey) then Err(BadAnnouncePort)
              else if !HasNumber(before, ListenPortKey) then Err(BadListenPort)
              else Ok(Snapshot(ip, before[AnnouncePortKey].n, before[ListenPortKey].n))
  {
    assert SameAt(before, after, AnnouncePortKey);
    assert SameAt(before, after, ListenPortKey);
  }
}
