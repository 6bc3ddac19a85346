/**
 The contract of the S3-like store (packages/storage/index.ts): multipart sessions, presigned
 part URLs and finished objects. `free` is the free space of the disk the store writes to.
 */
module ObjectStore {
  import opened Base
  import opened Planning

  type Key = nat

  /** `reported` tells whether a listing of the part carries its checksum. */
  datatype StoredPart = StoredPart(content: Bytes, etag: string, reported: bool)

  /** Slot n - 1 holds part number n. */
  datatype Session = Session(key: Key, parts: seq<Option<StoredPart>>)

  datatype Url = Url(session: nat, number: int, length: int, checksum: int)

  datatype Put = Put(url: Url, content: Bytes, etag: string, reported: bool)

  datatype ManifestEntry = ManifestEntry(part: StoragePart, checksum: int)

  datatype Store = Store(
    sessions: map<nat, Session>,
    objects: map<Key, Bytes>,
    urls: set<Url>,
    nextSession: nat,
    free: int)

  function SlotLength(slot: Option<StoredPart>): int {
    if slot.Some? then |slot.value.content| else 0
  }

  function SlotLengths(parts: seq<Option<StoredPart>>): (r: seq<int>)
    ensures |r| == |parts|
  {
    seq(|parts|, i requires 0 <= i < |parts| => SlotLength(parts[i]))
  }

  function SessionBytes(session: Session): int {
    Sum(SlotLengths(session.parts))
  }

  function CreateSession(st: Store, key: Key): Store {
    st.(sessions := st.sessions[st.nextSession := Session(key, seq(MAX_PARTS, _ => None))],
        nextSession := st.nextSession + 1)
  }

  /** A PUT is accepted only through a signed URL and only with the signed length and checksum. */
  predicate Accepts(st: Store, hash: Bytes -> int, p: Put) {
    && p.url in st.urls
    && p.url.session in st.sessions
    && 1 <= p.url.number <= |st.sessions[p.url.session].parts|
    && |p.content| == p.url.length
    && hash(p.content) == p.url.checksum
    && p.etag != ""
  }

  function PutPart(st: Store, hash: Bytes -> int, p: Put): Store {
    if !Accepts(st, hash, p) then st
    else
      var session := st.sessions[p.url.session];
      var slot := p.url.number - 1;
      st.(sessions := st.sessions[p.url.session :=
              session.(parts := session.parts[slot := Some(StoredPart(p.content, p.etag, p.reported))])],
          free := st.free + SlotLength(session.parts[slot]) - |p.content|)
  }

  function PutParts(st: Store, hash: Bytes -> int, ps: seq<Put>): Store {
    if |ps| == 0 then st else PutPart(PutParts(st, hash, ps[..|ps| - 1]), hash, ps[|ps| - 1])
  }

  datatype Listed = Listed(part: StoragePart, checksum: Option<int>)

  function ListedPart(hash: Bytes -> int, number: int, p: StoredPart): Listed {
    Listed(StoragePart(number, |p.content|, p.etag), if p.reported then Some(hash(p.content)) else None)
  }

  /** The stored parts with numbers up to n, in order of their numbers. */
  function Listing(parts: seq<Option<StoredPart>>, hash: Bytes -> int, n: nat): seq<Listed>
    requires n <= |parts|
  {
    if n == 0 then []
    else
      Listing(parts, hash, n - 1) +
      (if parts[n - 1].Some? then [ListedPart(hash, n, parts[n - 1].value)] else [])
  }

  function ListParts(st: Store, hash: Bytes -> int, session: nat): Option<seq<Listed>> {
    if session in st.sessions
    then Some(Listing(st.sessions[session].parts, hash, |st.sessions[session].parts|))
    else None
  }

  predicate EntryMatches(parts: seq<Option<StoredPart>>, hash: Bytes -> int, e: ManifestEntry) {
    && 1 <= e.part.number <= |parts|
    && parts[e.part.number - 1].Some?
    && parts[e.part.number - 1].value.etag == e.part.etag
    && hash(parts[e.part.number - 1].value.content) == e.checksum
  }

  predicate ManifestMatches(parts: seq<Option<StoredPart>>, hash: Bytes -> int, manifest: seq<ManifestEntry>) {
    && (forall i :: 0 <= i < |manifest| ==> EntryMatches(parts, hash, manifest[i]))
    && (forall i, j :: 0 <= i < j < |manifest| ==> manifest[i].part.number < manifest[j].part.number)
  }

  function Join(parts: seq<Option<StoredPart>>, hash: Bytes -> int, manifest: seq<ManifestEntry>): Bytes
    requires ManifestMatches(parts, hash, manifest)
  {
    if |manifest| == 0 then []
    else
      Join(parts, hash, manifest[..|manifest| - 1]) +
      parts[manifest[|manifest| - 1].part.number - 1].value.content
  }

  /** `None` when the session is gone or an entry names a part the session does not hold. */
  function Complete(st: Store, hash: Bytes -> int, session: nat, manifest: seq<ManifestEntry>): Option<Store> {
    if session !in st.sessions || !ManifestMatches(st.sessions[session].parts, hash, manifest) then None
    else
      var s := st.sessions[session];
      var content := Join(s.parts, hash, manifest);
      var replaced := if s.key in st.objects then |st.objects[s.key]| else 0;
      Some(st.(sessions := st.sessions - {session},
               objects := st.objects[s.key := content],
               free := st.free + SessionBytes(s) + replaced - |content|))
  }

  function AbortSession(st: Store, session: nat): Store {
    if session !in st.sessions then st
    else st.(sessions := st.sessions - {session}, free := st.free + SessionBytes(st.sessions[session]))
  }

  function RemoveObject(st: Store, key: Key): Store {
    if key !in st.objects then st
    else st.(objects := st.objects - {key}, free := st.free + |st.objects[key]|)
  }
}
