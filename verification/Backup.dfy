/**
 The encrypted backup of app/backup/encrypted_backup.py. Key derivation, the AES-GCM cipher and
 the JSON printer and parser are foreign: they come in as a record of functions, with the laws
 they keep as a hypothesis. JSON documents are trees.
 */
module Backup {
  import opened Base64
  import opened Wrappers

  type Bytes = seq<Byte>

  datatype Json =
    | Text(text: string)
    | Number(number: int)
    | List(items: seq<Json>)
    | Record(fields: map<string, Json>)

  datatype Foreign = Foreign(
    derive: (string, Bytes) -> Bytes,
    seal: (Bytes, Bytes, Bytes) -> Bytes,           // key, nonce, plaintext
    unseal: (Bytes, Bytes, Bytes) -> Option<Bytes>, // key, nonce, ciphertext; None is InvalidTag
    dumps: Json -> Bytes,
    loads: Bytes -> Option<Json>)

  const VERSION := "2"
  const SALT_BYTES := 16
  const NONCE_BYTES := 12
  const TAG_BYTES := 16

  datatype Entry = Entry(messageId: string, plaintext: Bytes, timestampMs: int)

  datatype Payload = Payload(nonce: Bytes, ciphertext: Bytes)

  datatype Bundle = Bundle(version: string, createdAtMs: int, salt: Bytes, blob: Payload)

  datatype Error =
    | EmptyPassword | BadSalt | BadVersion | BadTime | EmptyMessageId | Malformed | MissingField | TooShort
    | UnsupportedVersion | InvalidTag

  /** What a reader relies on: the cipher opens what it sealed under the same key and nonce and
      adds a tag, and the JSON engine reads what it printed. */
  ghost predicate Lawful(f: Foreign) {
    && (forall k, n, m :: |f.seal(k, n, m)| == |m| + TAG_BYTES)
    && (forall k, n, m :: f.unseal(k, n, f.seal(k, n, m)) == Some(m))
    && (forall j :: f.loads(f.dumps(j)) == Some(j))
  }

  // ---------- values with their checks ----------

  function MakeEntry(messageId: string, plaintext: Bytes, timestampMs: int): Result<Entry, Error> {
    if messageId == "" then Err(EmptyMessageId)
    else if timestampMs < 0 then Err(BadTime)
    else Ok(Entry(messageId, plaintext, timestampMs))
  }

  function MakeBundle(version: string, createdAtMs: int, salt: Bytes, blob: Payload): Result<Bundle, Error> {
    if version == "" then Err(BadVersion)
    else if createdAtMs < 0 then Err(BadTime)
    else if |salt| != SALT_BYTES then Err(BadSalt)
    else Ok(Bundle(version, createdAtMs, salt, blob))
  }

  function ToBytes(p: Payload): Bytes {
    p.nonce + p.ciphertext
  }

  function FromBytes(raw: Bytes): Result<Payload, Error> {
    if |raw| < NONCE_BYTES + TAG_BYTES then Err(TooShort) else Ok(Payload(raw[..NONCE_BYTES], raw[NONCE_BYTES..]))
  }

  function DeriveKey(f: Foreign, password: string, salt: Bytes): Result<Bytes, Error> {
    if password == "" then Err(EmptyPassword)
    else if |salt| != SALT_BYTES then Err(BadSalt)
    else Ok(f.derive(password, salt))
  }

  // ---------- entries ----------

  function EntryToJson(e: Entry): Json {
    Record(map["message_id" := Text(e.messageId), "plaintext_b64" := Text(Encode(e.plaintext, false)),
               "timestamp_ms" := Number(e.timestampMs)])
  }

  function EntriesToJson(entries: seq<Entry>): Json {
    List(seq(|entries|, i requires 0 <= i < |entries| => EntryToJson(entries[i])))
  }

  function TextField(j: Json, name: string): Result<string, Error>
    requires j.Record?
  {
    if name !in j.fields then Err(MissingField)
    else if j.fields[name].Text? then Ok(j.fields[name].text)
    else Err(Malformed)
  }

  function BytesField(j: Json, name: string): Result<Bytes, Error>
    requires j.Record?
  {
    match TextField(j, name)
    case Err(e) => Err(e)
    case Ok(text) => if DecodeAll(text, false).Some? then Ok(DecodeAll(text, false).value) else Err(Malformed)
  }

  function NumberField(j: Json, name: string): Result<int, Error>
    requires j.Record?
  {
    if name !in j.fields then Err(MissingField)
    else if j.fields[name].Number? then Ok(j.fields[name].number)
    else Err(Malformed)
  }

  function JsonToEntry(j: Json): Result<Entry, Error> {
    if !j.Record? then Err(Malformed)
    else
      match (TextField(j, "message_id"), BytesField(j, "plaintext_b64"), NumberField(j, "timestamp_ms"))
      case (Ok(id), Ok(plaintext), Ok(time)) => MakeEntry(id, plaintext, time)
      case (Err(e), _, _) => Err(e)
      case (_, Err(e), _) => Err(e)
      case (_, _, Err(e)) => Err(e)
  }

  method JsonToEntries(f: Foreign, raw: Bytes) returns (r: Result<seq<Entry>, Error>)
    ensures r == EntriesFrom(f.loads(raw))
  {
    var payload := f.loads(raw);
    if payload.None? || !payload.value.List? {
      return Err(Malformed);
    }
    var items := payload.value.items;
    var entries := [];
    JoinedNone(ReadAll(items, 0));
    for i := 0 to |items|
      invariant ReadAll(items, 0) == Joined(entries, ReadAll(items, i))
    {
      var entry := JsonToEntry(items[i]);
      if entry.Err? {
        return Err(entry.error);
      }
      JoinedTwice(entries, entry.value, ReadAll(items, i + 1));
      entries := entries + [entry.value];
    }
    assert entries + [] == entries;
    return Ok(entries);
  }

  function Joined(front: seq<Entry>, rest: Result<seq<Entry>, Error>): Result<seq<Entry>, Error> {
    if rest.Err? then rest else Ok(front + rest.value)
  }

  lemma JoinedNone(rest: Result<seq<Entry>, Error>)
    ensures Joined([], rest) == rest
  {
    if rest.Ok? {
      assert [] + rest.value == rest.value;
    }
  }

  lemma JoinedTwice(front: seq<Entry>, e: Entry, rest: Result<seq<Entry>, Error>)
    ensures Joined(front, Joined([e], rest)) == Joined(front + [e], rest)
  {
    if rest.Ok? {
      assert front + ([e] + rest.value) == front + [e] + rest.value;
    }
  }

  function ReadAll(items: seq<Json>, i: nat): Result<seq<Entry>, Error>
    requires i <= |items|
    decreases |items| - i
  {
    if i == |items| then Ok([])
    else
      match JsonToEntry(items[i])
      case Err(e) => Err(e)
      case Ok(entry) => Joined([entry], ReadAll(items, i + 1))
  }

  function EntriesFrom(payload: Option<Json>): Result<seq<Entry>, Error> {
    if payload.None? || !payload.value.List? then Err(Malformed) else ReadAll(payload.value.items, 0)
  }

  // ---------- the four operations ----------

  function EncryptBackup(f: Foreign, entries: seq<Entry>, password: string, createdAtMs: int, salt: Bytes, nonce: Bytes)
    : Result<Bundle, Error>
  {
    match DeriveKey(f, password, salt)
    case Err(e) => Err(e)
    case Ok(key) =>
      MakeBundle(VERSION, createdAtMs, salt, Payload(nonce, f.seal(key, nonce, f.dumps(EntriesToJson(entries)))))
  }

  function DecryptBackup(f: Foreign, bundle: Bundle, password: string): Result<seq<Entry>, Error> {
    if bundle.version != VERSION then Err(UnsupportedVersion)
    else
      match DeriveKey(f, password, bundle.salt)
      case Err(e) => Err(e)
      case Ok(key) =>
        match f.unseal(key, bundle.blob.nonce, bundle.blob.ciphertext)
        case None => Err(InvalidTag)
        case Some(raw) => EntriesFrom(f.loads(raw))
  }

  function BundleToJson(b: Bundle): Json {
    Record(map["version" := Text(b.version), "created_at_ms" := Number(b.createdAtMs),
               "salt_b64" := Text(Encode(b.salt, false)), "blob_b64" := Text(Encode(ToBytes(b.blob), false))])
  }

  function SerializeBundle(f: Foreign, b: Bundle): Bytes {
    f.dumps(BundleToJson(b))
  }

  function DeserializeBundle(f: Foreign, raw: Bytes): Result<Bundle, Error> {
    match f.loads(raw)
    case None => Err(Malformed)
    case Some(j) =>
      if !j.Record? then Err(Malformed)
      else if !({"version", "created_at_ms", "salt_b64", "blob_b64"} <= j.fields.Keys) then Err(MissingField)
      else
        match (TextField(j, "version"), NumberField(j, "created_at_ms"), BytesField(j, "salt_b64"),
               BytesField(j, "blob_b64"))
        case (Ok(version), Ok(created), Ok(salt), Ok(blob)) =>
          (match FromBytes(blob)
           case Err(e) => Err(e)
           case Ok(payload) => MakeBundle(version, created, salt, payload))
        case (Err(e), _, _, _) => Err(e)
        case (_, Err(e), _, _) => Err(e)
        case (_, _, Err(e), _) => Err(e)
        case (_, _, _, Err(e)) => Err(e)
  }

  // ---------- round trips ----------

  predicate WellFormed(e: Entry) {
    e.messageId != "" && e.timestampMs >= 0
  }

  lemma EntryRoundTrip(e: Entry)
    requires WellFormed(e)
    ensures JsonToEntry(EntryToJson(e)) == Ok(e)
  {
    RoundTrip(e.plaintext, false);
  }

  lemma {:induction false} ItemsRoundTrip(entries: seq<Entry>, items: seq<Json>, i: nat)
    requires i <= |entries| == |items| && forall k :: 0 <= k < |entries| ==> items[k] == EntryToJson(entries[k])
    requires forall e :: e in entries ==> WellFormed(e)
    ensures ReadAll(items, i) == Ok(entries[i..])
    decreases |entries| - i
  {
    if i < |entries| {
      EntryRoundTrip(entries[i]);
      ItemsRoundTrip(entries, items, i + 1);
      assert entries[i..] == [entries[i]] + entries[i + 1..];
    }
  }

  lemma EntriesRoundTrip(entries: seq<Entry>)
    requires forall e :: e in entries ==> WellFormed(e)
    ensures EntriesFrom(Some(EntriesToJson(entries))) == Ok(entries)
  {
    ItemsRoundTrip(entries, EntriesToJson(entries).items, 0);
    assert entries[0..] == entries;
  }

  /** Any 12-byte nonce and ciphertext with a tag comes back from its bytes, and nothing shorter is read. */
  lemma PayloadRoundTrip(p: Payload)
    requires |p.nonce| == NONCE_BYTES
    ensures FromBytes(ToBytes(p)) == if |p.ciphertext| >= TAG_BYTES then Ok(p) else Err(TooShort)
  {
    assert ToBytes(p)[..NONCE_BYTES] == p.nonce && ToBytes(p)[NONCE_BYTES..] == p.ciphertext;
  }

  lemma BundleFields(b: Bundle)
    ensures var j := BundleToJson(b);
      && j.Record? && j.fields.Keys == {"version", "created_at_ms", "salt_b64", "blob_b64"}
      && TextField(j, "version") == Ok(b.version) && NumberField(j, "created_at_ms") == Ok(b.createdAtMs)
      && BytesField(j, "salt_b64") == Ok(b.salt) && BytesField(j, "blob_b64") == Ok(ToBytes(b.blob))
  {
    RoundTrip(b.salt, false);
    RoundTrip(ToBytes(b.blob), false);
  }

  lemma BundleRoundTrip(f: Foreign, b: Bundle)
    requires Lawful(f) && MakeBundle(b.version, b.createdAtMs, b.salt, b.blob).Ok?
    requires |b.blob.nonce| == NONCE_BYTES && |b.blob.ciphertext| >= TAG_BYTES
    ensures DeserializeBundle(f, SerializeBundle(f, b)) == Ok(b)
  {
    BundleFields(b);
    PayloadRoundTrip(b.blob);
    assert f.loads(SerializeBundle(f, b)) == Some(BundleToJson(b));
  }

  /** A backup written and read back gives its entries under every password that derives the same
      key, and a tag failure under every key the cipher rejects. */
  lemma RestoreGivesBack(f: Foreign, entries: seq<Entry>, password: string, createdAtMs: nat, salt: Bytes, nonce: Bytes,
                         attempt: string)
    requires Lawful(f) && password != "" && |salt| == SALT_BYTES && |nonce| == NONCE_BYTES
    requires forall e :: e in entries ==> WellFormed(e)
    ensures var made := EncryptBackup(f, entries, password, createdAtMs, salt, nonce);
      && made.Ok?
      && var found := DeserializeBundle(f, SerializeBundle(f, made.value));
      && found == Ok(made.value)
      && (attempt == "" ==> DecryptBackup(f, found.value, attempt) == Err(EmptyPassword))
      && (attempt != "" && f.derive(attempt, salt) == f.derive(password, salt) ==>
            DecryptBackup(f, found.value, attempt) == Ok(entries))
      && (attempt != "" && f.unseal(f.derive(attempt, salt), nonce, made.value.blob.ciphertext).None? ==>
            DecryptBackup(f, found.value, attempt) == Err(InvalidTag))
  {
    var made := EncryptBackup(f, entries, password, createdAtMs, salt, nonce).value;
    BundleRoundTrip(f, made);
    EntriesRoundTrip(entries);
  }

  lemma {:induction false} ReadEntriesAreWellFormed(items: seq<Json>, i: nat)
    requires i <= |items|
    ensures ReadAll(items, i).Ok? ==>
              |ReadAll(items, i).value| == |items| - i && forall e :: e in ReadAll(items, i).value ==> WellFormed(e)
    decreases |items| - i
  {
    if i < |items| && JsonToEntry(items[i]).Ok? {
      ReadEntriesAreWellFormed(items, i + 1);
    }
  }

  /** Whatever file is opened: entries come out only of a bundle of the present version that the cipher opens
      under the key derived from this password and the bundle's salt, and all of them are well-formed. */
  lemma OpensOnlyWhatFits(f: Foreign, bundle: Bundle, password: string)
    requires DecryptBackup(f, bundle, password).Ok?
    ensures bundle.version == "2" && password != "" && |bundle.salt| == 16
    ensures var raw := f.unseal(f.derive(password, bundle.salt), bundle.blob.nonce, bundle.blob.ciphertext);
      && raw.Some? && f.loads(raw.value).Some? && f.loads(raw.value).value.List?
      && |DecryptBackup(f, bundle, password).value| == |f.loads(raw.value).value.items|
    ensures forall e :: e in DecryptBackup(f, bundle, password).value ==> e.messageId != "" && e.timestampMs >= 0
  {
    var raw := f.unseal(f.derive(password, bundle.salt), bundle.blob.nonce, bundle.blob.ciphertext);
    ReadEntriesAreWellFormed(f.loads(raw.value).value.items, 0);
  }
}
