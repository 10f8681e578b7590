/**
 * The document-level rules of server/server.js: `mapId` renaming `_id` to `id`, and the user
 * reads that must never hand out a PIN.
 */
module ServerDocs {
  import opened Wrappers
  import opened Seqs
  import opened Catalog

  /** A field value of a stored document, as far as these rules look at it. */
  datatype Value = Str(s: string) | Num(n: int) | Ref(id: Id) | Null

  /** A stored document: field name to value; a missing key is an absent field. */
  type Doc = map<string, Value>

  /** JavaScript truthiness of a field read from a request body (absent is `undefined`). */
  predicate Truthy(v: Option<Value>) {
    match v
    case None => false
    case Some(Str(s)) => s != ""
    case Some(Num(n)) => n != 0
    case Some(Ref(_)) => true
    case Some(Null) => false
  }

  function Field(d: Doc, key: string): Option<Value> {
    if key in d then Some(d[key]) else None
  }

  /**
   * `{ id: _id, ...rest }`: `_id` is gone, every other field is kept, and `id` holds `_id`
   * unless the document already had an `id` field, which the spread then keeps.
   */
  function MapDoc(d: Doc): (r: Doc)
    ensures "_id" !in r
    ensures forall k :: k in d && k != "_id" ==> k in r
    ensures forall k :: k in r ==> k == "id" || k in d
    ensures forall k :: k in d && k != "_id" && k != "id" ==> r[k] == d[k]
    ensures "id" in d ==> r["id"] == d["id"]
    ensures "id" !in d ==> ("id" in r <==> "_id" in d) && ("_id" in d ==> r["id"] == d["_id"])
  {
    var rest := d - {"_id"};
    if "id" in rest || "_id" !in d then rest else rest["id" := d["_id"]]
  }

  /** `mapId`: null stays null. */
  function MapId(item: Option<Doc>): (r: Option<Doc>)
    ensures r.None? <==> item.None?
  {
    match item
    case None => None
    case Some(d) => Some(MapDoc(d))
  }

  /** The inverse renaming, `id` back to `_id`. */
  function UnmapDoc(r: Doc): Doc {
    if "id" in r then (r - {"id"})["_id" := r["id"]] else r
  }

  /** A stored document with an `_id` and no `id` of its own comes back unchanged from the renaming. */
  lemma MapIdRoundTrip(d: Doc)
    requires "_id" in d && "id" !in d
    ensures MapId(Some(d)).Some? && UnmapDoc(MapId(Some(d)).value) == d
  {
    assert UnmapDoc(MapDoc(d)).Keys == d.Keys;
  }

  /** `findOne({ username, pin })`. */
  predicate Matches(d: Doc, username: string, pin: string) {
    Field(d, "username") == Some(Str(username)) && Field(d, "pin") == Some(Str(pin))
  }

  /** A user as the API returns it: the PIN projected away, then `mapId`. */
  function Public(d: Doc): Doc {
    MapDoc(d - {"pin"})
  }

  /** `POST /api/login`: the first user with that username and PIN, or None for the 401. */
  function Login(users: seq<Doc>, username: string, pin: string): Option<Doc> {
    var found := FirstIndex(users, (d: Doc) => Matches(d, username, pin));
    if found.None? then None else Some(Public(users[found.value]))
  }

  /**
   * Login answers exactly when some stored user has that username and PIN; the answer is the
   * public form of the first such user, so it carries that username, role and id and never a PIN.
   */
  lemma LoginFacts(users: seq<Doc>, username: string, pin: string)
    ensures Login(users, username, pin).Some? <==> exists k :: 0 <= k < |users| && Matches(users[k], username, pin)
    ensures forall k :: (&& 0 <= k < |users| && Matches(users[k], username, pin)
                         && forall j :: 0 <= j < k ==> !Matches(users[j], username, pin)) ==>
      Login(users, username, pin) == Some(Public(users[k]))
    ensures Login(users, username, pin).Some? ==>
      && "pin" !in Login(users, username, pin).value
      && Field(Login(users, username, pin).value, "username") == Some(Str(username))
  {
    var keep := (d: Doc) => Matches(d, username, pin);
    var found := FirstIndex(users, keep);
    if found.Some? {
      assert keep(users[found.value]);
      forall k | 0 <= k < |users| && Matches(users[k], username, pin) && forall j :: 0 <= j < k ==> !Matches(users[j], username, pin)
        ensures k == found.value
      {
        assert keep(users[k]);
      }
    } else {
      forall k | 0 <= k < |users| ensures !Matches(users[k], username, pin) {
        assert !keep(users[k]);
      }
    }
  }

  /** `GET /api/users`: every user, projected without the PIN. */
  function ListUsers(users: seq<Doc>): seq<Doc> {
    MapSeq(users, Public)
  }

  /** The list has one entry per user, none with a PIN, each keeping the user's other fields. */
  lemma ListUsersHidesPin(users: seq<Doc>)
    ensures |ListUsers(users)| == |users|
    ensures forall i :: 0 <= i < |users| ==>
      && "pin" !in ListUsers(users)[i]
      && (forall k :: k in users[i] && k != "pin" && k != "_id" && k != "id" ==> ListUsers(users)[i][k] == users[i][k])
  {
  }
}
