/** Staging a chunked chat, stageChunkedChat of src/chat/chunked.ts, and the round
    trip with its capture. */
module Staging {
  import opened Basics
  import opened Schema
  import opened Reach
  import opened Seeds
  import opened Walker
  import opened Transfer
  import opened Portable
  import opened Canonical
  import opened Chunks
  import opened ChunkedChat
  import Bubbles
  import JsonString
  import Base64

  // ----- What staging checks of the rows -----

  predicate AllowedKey(composerId: Text, k: Kind, key: Text) {
    if k == Core then key == ComposerKey(composerId) || Prefix(composerId) < key else IsBlobKey(key)
  }

  predicate StagedRowOk(c: Codec, composerId: Text, k: Kind, row: Row) {
    && AllowedKey(composerId, k, row.key) && |row.key| <= MAX_KEY
    && Base64.IsCanonical(row.valueBase64) && row.valueType != Some(OtherClass)
    && (row.valueType == Some(NullClass) ==> RowBytes(row) == [])
    && (row.valueType == Some(TextClass) ==> c.isUtf8(RowBytes(row)))
    && (k == Kv ==> row.valueType != Some(NullClass) && c.sha256(RowBytes(row)) == BlobId(row.key))
  }

  /** A key of composerData or of a message. */
  ghost predicate IsCoreKey(composerId: Text, key: Text) {
    || key == Ascii("composerData:") + composerId
    || exists id :: id != [] && key == Ascii("bubbleId:") + composerId + Ascii(":") + id
  }

  /** The row carries the bytes: under composerData's or a message's key, or under
      their own hash, with a storage class that fits them. */
  ghost predicate Carries(c: Codec, composerId: Text, k: Kind, row: Row, bytes: seq<byte>) {
    && row.valueBase64 == Base64.Encode(bytes) && |row.key| <= MAX_KEY
    && (match row.valueType
        case None => true
        case Some(BlobClass) => true
        case Some(TextClass) => c.isUtf8(bytes)
        case Some(NullClass) => k == Core && bytes == []
        case Some(OtherClass) => false)
    && if k == Core then IsCoreKey(composerId, row.key)
       else row.key == BLOB_PREFIX + c.sha256(bytes) && IsId(c.sha256(bytes))
  }

  /** A row is staged exactly if it carries some bytes. */
  lemma StagedRowMeans(c: Codec, composerId: Text, k: Kind, row: Row)
    ensures StagedRowOk(c, composerId, k, row) <==> exists bytes :: Carries(c, composerId, k, row, bytes)
  {
    hide IsId, IsCoreKey, Prefix, ComposerKey, IsBlobKey, BlobId;
    CoreKeyMeans(composerId, row.key);
    BlobKeyMeans(row.key, BlobId(row.key));
    if StagedRowOk(c, composerId, k, row) {
      assert Carries(c, composerId, k, row, RowBytes(row));
    }
    if bytes :| Carries(c, composerId, k, row, bytes) {
      Base64.EncodeIsCanonical(bytes);
      Base64.DecodeEncode(bytes);
      BlobKeyMeans(row.key, c.sha256(bytes));
    }
  }

  lemma CoreKeyMeans(composerId: Text, key: Text)
    ensures key == ComposerKey(composerId) || Prefix(composerId) < key <==> IsCoreKey(composerId, key)
  {
    var prefix := Ascii("bubbleId:") + composerId + Ascii(":");
    assert Prefix(composerId) == prefix;
    if prefix < key {
      assert key == prefix + key[|prefix|..];
    }
  }

  lemma BlobKeyMeans(key: Text, id: Text)
    ensures key == BLOB_PREFIX + id ==> BlobId(key) == id && (IsBlobKey(key) <==> IsId(id))
    ensures IsBlobKey(key) ==> key == BLOB_PREFIX + BlobId(key) && IsId(BlobId(key))
  {
    hide IsId;
    if key == BLOB_PREFIX + id {
      assert key[|BLOB_PREFIX|..] == id;
    }
  }

  /** The row as the table gives it back: a missing storage class is text. */
  function Staged(row: Row): Row {
    if row.valueType == None then row.(valueType := Some(TextClass)) else row
  }

  function StagedRows(rows: seq<Row>): seq<Row> {
    seq(|rows|, i requires 0 <= i < |rows| => Staged(rows[i]))
  }

  /** All rows of a kind, part after part. */
  function RowsOf(contents: seq<PartContent>, k: Kind): seq<Row> {
    if contents == [] then []
    else
      var last := contents[|contents| - 1];
      RowsOf(contents[..|contents| - 1], k) + if last.kind == k then StagedRows(last.rows) else []
  }

  predicate RowsOk(c: Codec, composerId: Text, p: PartContent) {
    forall i :: 0 <= i < |p.rows| ==> StagedRowOk(c, composerId, p.kind, p.rows[i])
  }

  /** No key comes twice. */
  predicate Once(a: seq<Row>, b: seq<Row>) {
    |Bubbles.Index(a).Keys + Bubbles.Index(b).Keys| == |a| + |b|
  }

  lemma {:induction false} KeysBound(a: seq<Row>)
    ensures |Bubbles.Index(a).Keys| <= |a|
  {
    if a != [] {
      var n := |a| - 1;
      KeysBound(a[..n]);
      assert Bubbles.Index(a).Keys == Bubbles.Index(a[..n]).Keys + {a[n].key};
    }
  }

  lemma UnionBound(a: set<Text>, b: set<Text>)
    ensures |a + b| <= |a| + |b|
  {
    assert a + b == a + (b - a);
    assert b == (b - a) + (b * a);
  }

  lemma OnceBound(a: seq<Row>, b: seq<Row>)
    ensures |Bubbles.Index(a).Keys + Bubbles.Index(b).Keys| <= |a| + |b|
  {
    hide Bubbles.Index;
    KeysBound(a);
    KeysBound(b);
    UnionBound(Bubbles.Index(a).Keys, Bubbles.Index(b).Keys);
  }

  /** One more row of the first or of the second kind. */
  lemma OnceStep(a: seq<Row>, b: seq<Row>, row: Row)
    ensures Once(a + [row], b) <==> Once(a, b) && row.key !in Bubbles.Index(a).Keys + Bubbles.Index(b).Keys
    ensures Once(a, b + [row]) <==> Once(a, b) && row.key !in Bubbles.Index(a).Keys + Bubbles.Index(b).Keys
  {
    OnceBound(a, b);
    Bubbles.IndexAppend(a, row);
    Bubbles.IndexAppend(b, row);
    hide Bubbles.Index;
    var keys := Bubbles.Index(a).Keys + Bubbles.Index(b).Keys;
    assert Bubbles.Index(a + [row]).Keys + Bubbles.Index(b).Keys == keys + {row.key};
    assert Bubbles.Index(a).Keys + Bubbles.Index(b + [row]).Keys == keys + {row.key};
  }

  function More(k: Kind, own: Kind, rows: seq<Row>, more: seq<Row>): seq<Row> {
    if k == own then rows + more else rows
  }

  lemma {:induction false} OnceFront(core: seq<Row>, kv: seq<Row>, k: Kind, more: seq<Row>)
    requires Once(More(k, Core, core, more), More(k, Kv, kv, more))
    ensures Once(core, kv)
    decreases |more|
  {
    hide Once;
    if more == [] {
      assert core + more == core && kv + more == kv;
    } else {
      var n := |more| - 1;
      assert core + more == (core + more[..n]) + [more[n]] && kv + more == (kv + more[..n]) + [more[n]];
      OnceStep(More(k, Core, core, more[..n]), More(k, Kv, kv, more[..n]), more[n]);
      OnceFront(core, kv, k, more[..n]);
    }
  }

  /** The inserts of one part. */
  method InsertPart(c: Codec, composerId: Text, p: PartContent, core: map<Text, Row>, kv: map<Text, Row>,
                    ghost coreRows: seq<Row>, ghost kvRows: seq<Row>)
    returns (ok: bool, core': map<Text, Row>, kv': map<Text, Row>)
    requires core == Bubbles.Index(coreRows) && kv == Bubbles.Index(kvRows) && Once(coreRows, kvRows)
    ensures ok <==>
              RowsOk(c, composerId, p)
              && Once(More(p.kind, Core, coreRows, StagedRows(p.rows)), More(p.kind, Kv, kvRows, StagedRows(p.rows)))
    ensures ok ==> core' == Bubbles.Index(More(p.kind, Core, coreRows, StagedRows(p.rows)))
    ensures ok ==> kv' == Bubbles.Index(More(p.kind, Kv, kvRows, StagedRows(p.rows)))
  {
    hide Once, StagedRowOk, Bubbles.Index, Staged;
    core', kv' := core, kv;
    ghost var rows := StagedRows(p.rows);
    MoreNone(p.kind, coreRows, kvRows, rows);
    for i := 0 to |p.rows|
      invariant forall j :: 0 <= j < i ==> StagedRowOk(c, composerId, p.kind, p.rows[j])
      invariant Once(More(p.kind, Core, coreRows, rows[..i]), More(p.kind, Kv, kvRows, rows[..i]))
      invariant core' == Bubbles.Index(More(p.kind, Core, coreRows, rows[..i]))
      invariant kv' == Bubbles.Index(More(p.kind, Kv, kvRows, rows[..i]))
    {
      if !StagedRowOk(c, composerId, p.kind, p.rows[i]) {
        return false, core', kv';
      }
      var row := Staged(p.rows[i]);
      MoreStep(p.kind, coreRows, kvRows, rows, i);
      OnceStep(More(p.kind, Core, coreRows, rows[..i]), More(p.kind, Kv, kvRows, rows[..i]), row);
      if row.key in core' || row.key in kv' {
        NotOnce(p.kind, coreRows, kvRows, rows, i + 1);
        return false, core', kv';
      }
      Bubbles.IndexAppend(More(p.kind, Core, coreRows, rows[..i]), row);
      Bubbles.IndexAppend(More(p.kind, Kv, kvRows, rows[..i]), row);
      if p.kind == Core {
        core' := core'[row.key := row];
      } else {
        kv' := kv'[row.key := row];
      }
    }
    assert rows[..|p.rows|] == rows;
    return true, core', kv';
  }

  lemma MoreNone(k: Kind, core: seq<Row>, kv: seq<Row>, rows: seq<Row>)
    ensures More(k, Core, core, rows[..0]) == core && More(k, Kv, kv, rows[..0]) == kv
  {
    assert core + rows[..0] == core && kv + rows[..0] == kv;
  }

  lemma MoreStep(k: Kind, core: seq<Row>, kv: seq<Row>, rows: seq<Row>, i: nat)
    requires i < |rows|
    ensures More(k, Core, core, rows[..i + 1]) ==
              if k == Core then More(k, Core, core, rows[..i]) + [rows[i]] else More(k, Core, core, rows[..i])
    ensures More(k, Kv, kv, rows[..i + 1]) ==
              if k == Kv then More(k, Kv, kv, rows[..i]) + [rows[i]] else More(k, Kv, kv, rows[..i])
  {
    assert rows[..i + 1] == rows[..i] + [rows[i]];
    assert core + rows[..i + 1] == core + rows[..i] + [rows[i]];
    assert kv + rows[..i + 1] == kv + rows[..i] + [rows[i]];
  }

  lemma NotOnce(k: Kind, core: seq<Row>, kv: seq<Row>, rows: seq<Row>, i: nat)
    requires i <= |rows| && !Once(More(k, Core, core, rows[..i]), More(k, Kv, kv, rows[..i]))
    ensures !Once(More(k, Core, core, rows), More(k, Kv, kv, rows))
  {
    hide Once;
    assert core + rows == (core + rows[..i]) + rows[i..] && kv + rows == (kv + rows[..i]) + rows[i..];
    if Once(More(k, Core, core, rows), More(k, Kv, kv, rows)) {
      OnceFront(More(k, Core, core, rows[..i]), More(k, Kv, kv, rows[..i]), k, rows[i..]);
    }
  }

  // ----- What staging accepts -----

  /** A part is the one its descriptor authenticates. */
  predicate Authentic(c: Codec, m: Manifest, d: Descriptor, p: PartContent) {
    && |PartBytes(p)| == d.plainBytes <= CHUNK_BYTES && c.sha256(PartBytes(p)) == d.hash
    && p.composerId == m.composerId && p.kind == d.kind && |p.rows| == d.rows
  }

  predicate PartAccepted(c: Codec, m: Manifest, d: Descriptor, p: PartContent) {
    Authentic(c, m, d, p) && RowsOk(c, m.composerId, p)
  }

  ghost predicate PartsAccepted(c: Codec, m: Manifest, contents: seq<PartContent>) {
    && |contents| == |m.parts|
    && (forall i :: 0 <= i < |contents| ==> PartAccepted(c, m, m.parts[i], contents[i]))
    && Once(RowsOf(contents, Core), RowsOf(contents, Kv))
  }

  /** Keys of messages among the core rows. */
  /** No two of the printed parts have one hash. */
  ghost predicate NoCollision(c: Codec, a: seq<PartContent>, b: seq<PartContent>) {
    forall i ::
      0 <= i < |a| && i < |b| && c.sha256(PartBytes(a[i])) == c.sha256(PartBytes(b[i])) ==>
        PartBytes(a[i]) == PartBytes(b[i])
  }

  /** A manifest binds its parts: what is accepted for it prints the same bytes. */
  lemma ManifestBinds(c: Codec, m: Manifest, a: seq<PartContent>, b: seq<PartContent>)
    requires PartsAccepted(c, m, a) && PartsAccepted(c, m, b) && NoCollision(c, a, b)
    ensures |a| == |b| && forall i :: 0 <= i < |a| ==> PartBytes(a[i]) == PartBytes(b[i])
    ensures forall i :: 0 <= i < |a| ==> |a[i].rows| == |b[i].rows| && a[i].kind == b[i].kind
  {
    hide PartBytes, RowsOf, Once, RowsOk;
    forall i | 0 <= i < |a|
      ensures PartBytes(a[i]) == PartBytes(b[i]) && |a[i].rows| == |b[i].rows| && a[i].kind == b[i].kind
    {
      assert PartAccepted(c, m, m.parts[i], a[i]) && PartAccepted(c, m, m.parts[i], b[i]);
    }
  }

  function MessageKeys(composerId: Text, core: map<Text, Row>): set<Text> {
    set k | k in core && Prefix(composerId) <= k
  }

  /** The messages of the table in key order. */
  ghost predicate InKeyOrder(composerId: Text, core: map<Text, Row>, bubbles: seq<Row>) {
    StrictlySorted(Keys(bubbles)) && Elements(Keys(bubbles)) == MessageKeys(composerId, core)
    && forall i :: 0 <= i < |bubbles| ==> bubbles[i].key in core && core[bubbles[i].key] == bubbles[i]
  }

  function StagedStore(kv: map<Text, Row>): Text -> LookupResult {
    (key: Text) =>
      if key in kv then Found(key, Some(RowBytes(kv[key])),
                              Some(if kv[key].valueType == Some(BlobClass) then BlobValue else TextValue))
      else Absent
  }

  function StagedWorld(c: Codec, rd: Reader, kv: map<Text, Row>): World {
    World(StagedStore(kv), c.sha256, rd)
  }

  ghost predicate CoreAccepted(c: Codec, rd: Reader, r: RowReader, m: Manifest, core: map<Text, Row>,
                               kv: map<Text, Row>, bubbles: seq<Row>)
  {
    && ComposerKey(m.composerId) in core
    && var composer := core[ComposerKey(m.composerId)];
    && var states := StatesOf(r, m.composerId, composer, bubbles, |bubbles|);
    && AllFound(r.visible(composer), m.composerId, bubbles) && states.Some?
    && |bubbles| == m.bubbleCount && |kv| == m.agentKvBlobCount
    && c.sha256(JsonString.Utf8(CoreText(m.header.composerId, m.header, composer, bubbles))) == m.chatCoreHash
    && Completable(StagedWorld(c, rd, kv), GraphLimits(), true, states.value)
  }

  ghost predicate StageAccepts(c: Codec, rd: Reader, r: RowReader, m: Manifest, contents: seq<PartContent>) {
    && m.continuationComplete && m.agentKvMissingCount == 0
    && PartsAccepted(c, m, contents)
    && var core, kv := Bubbles.Index(RowsOf(contents, Core)), Bubbles.Index(RowsOf(contents, Kv));
    && exists bubbles :: InKeyOrder(m.composerId, core, bubbles) && CoreAccepted(c, rd, r, m, core, kv, bubbles)
  }

  // ----- Staging -----

  method StageParts(c: Codec, m: Manifest, contents: seq<PartContent>)
    returns (ok: bool, core: map<Text, Row>, kv: map<Text, Row>)
    ensures ok <==> PartsAccepted(c, m, contents)
    ensures ok ==> core == Bubbles.Index(RowsOf(contents, Core)) && kv == Bubbles.Index(RowsOf(contents, Kv))
  {
    hide Once, RowsOk, Authentic, Bubbles.Index, StagedRows;
    core, kv := map[], map[];
    if |contents| != |m.parts| {
      return false, core, kv;
    }
    NothingStaged();
    assert contents[..0] == [];
    for i := 0 to |contents|
      invariant forall j :: 0 <= j < i ==> PartAccepted(c, m, m.parts[j], contents[j])
      invariant Once(RowsOf(contents[..i], Core), RowsOf(contents[..i], Kv))
      invariant core == Bubbles.Index(RowsOf(contents[..i], Core)) && kv == Bubbles.Index(RowsOf(contents[..i], Kv))
    {
      if !Authentic(c, m, m.parts[i], contents[i]) {
        return false, core, kv;
      }
      PartStep(contents, i);
      ok, core, kv := InsertPart(c, m.composerId, contents[i], core, kv, RowsOf(contents[..i], Core),
                                 RowsOf(contents[..i], Kv));
      if !ok {
        if RowsOk(c, m.composerId, contents[i]) {
          NotAllOnce(contents, i + 1);
        }
        return false, core, kv;
      }
    }
    assert contents[..|contents|] == contents;
    return true, core, kv;
  }

  lemma NothingStaged()
    ensures Bubbles.Index([]) == map[] && Once([], [])
  {
  }

  lemma PartStep(contents: seq<PartContent>, i: nat)
    requires i < |contents|
    ensures forall k ::
              RowsOf(contents[..i + 1], k) ==
                More(contents[i].kind, k, RowsOf(contents[..i], k), StagedRows(contents[i].rows))
  {
    hide StagedRows;
    assert contents[..i + 1][..i] == contents[..i];
    forall k
      ensures RowsOf(contents[..i + 1], k) ==
                More(contents[i].kind, k, RowsOf(contents[..i], k), StagedRows(contents[i].rows))
    {
      assert RowsOf(contents[..i], k) + [] == RowsOf(contents[..i], k);
    }
  }

  lemma {:induction false} NotAllOnce(contents: seq<PartContent>, i: nat)
    requires i <= |contents| && !Once(RowsOf(contents[..i], Core), RowsOf(contents[..i], Kv))
    ensures !Once(RowsOf(contents, Core), RowsOf(contents, Kv))
    decreases |contents| - i
  {
    hide Once, RowsOf, StagedRows, More;
    if i == |contents| {
      assert contents[..i] == contents;
    } else {
      PartStep(contents, i);
      if Once(RowsOf(contents[..i + 1], Core), RowsOf(contents[..i + 1], Kv)) {
        OnceFront(RowsOf(contents[..i], Core), RowsOf(contents[..i], Kv), contents[i].kind,
                  StagedRows(contents[i].rows));
      }
      NotAllOnce(contents, i + 1);
    }
  }

  /** The messages in key order: hashed again, their seeds collected again. */
  method StageMessages(r: RowReader, m: Manifest, composer: Row, bubbles: seq<Row>, hash: JsonString.HashSink)
    returns (states: Option<seq<Text>>, found: bool)
    requires hash.Valid()
    modifies hash
    ensures states.Some? ==> hash.Valid() && hash.clean == old(hash.clean)
    ensures states.Some? ==> hash.text == old(hash.text) + Items(RowsJson(bubbles))
    ensures states.Some? ==>
              r.visible(composer) != BadIndex && states == StatesOf(r, m.composerId, composer, bubbles, |bubbles|)
    ensures states.Some? ==> found == AllFound(r.visible(composer), m.composerId, bubbles)
    ensures states == None ==>
              r.visible(composer) == BadIndex || StatesOf(r, m.composerId, composer, bubbles, |bubbles|) == None
  {
    hide Items, RowsJson, RowJson, Stringify, AddState, Shown, JsonString.HashSink.Valid, MessageIds, MessageId;
    hide JsonString.WellFormed, Ascii;
    var index := r.visible(composer);
    states := AddState(r, composer, Some([]));
    found := false;
    if index == BadIndex {
      return None, false;
    }
    ghost var start := hash.text;
    var remaining := if index.Index? then index.ids else {};
    RowsNone();
    MessagesNone(m.composerId);
    CorePartsWellFormed();
    assert bubbles[..0] == [];
    if states == None {
      StatesFail(r, m.composerId, composer, bubbles, 0);
      return;
    }
    for i := 0 to |bubbles|
      invariant hash.Valid() && hash.clean == old(hash.clean)
      invariant hash.text == start + Items(RowsJson(bubbles[..i]))
      invariant states.Some? && states == StatesOf(r, m.composerId, composer, bubbles, i)
      invariant index == NoIndex ==> remaining == {}
      invariant index.Index? ==> remaining == index.ids - MessageIds(m.composerId, bubbles[..i])
    {
      var row := bubbles[i];
      RowsStep(bubbles, i, start);
      assert hash.text + [] == hash.text;
      if i > 0 {
        hash.Update(Ascii(","));
      }
      RowWellFormed(row);
      hash.Update(Stringify(RowJson(row)));
      MessagesStep(m.composerId, bubbles, i);
      if Shown(index, MessageId(m.composerId, row)) {
        remaining := remaining - {MessageId(m.composerId, row)};
        states := AddState(r, row, states);
        if states == None {
          StatesFail(r, m.composerId, composer, bubbles, i + 1);
          return;
        }
      } else {
        NotShown(index, MessageId(m.composerId, row));
      }
    }
    assert bubbles[..|bubbles|] == bubbles;
    found := remaining == {};
    assert index.Index? ==> (remaining == {} <==> index.ids <= MessageIds(m.composerId, bubbles));
  }

  lemma {:induction false} StatesFail(r: RowReader, composerId: Text, composer: Row, bubbles: seq<Row>, n: nat)
    requires n <= |bubbles| && StatesOf(r, composerId, composer, bubbles, n) == None
    ensures StatesOf(r, composerId, composer, bubbles, |bubbles|) == None
    decreases |bubbles| - n
  {
    hide AddState, Shown, MessageId;
    if n < |bubbles| {
      StatesFail(r, composerId, composer, bubbles, n + 1);
    }
  }

  lemma InKeyOrderOnce(composerId: Text, core: map<Text, Row>, a: seq<Row>, b: seq<Row>)
    requires InKeyOrder(composerId, core, a) && InKeyOrder(composerId, core, b)
    ensures a == b
  {
    hide StrictlySorted, MessageKeys;
    SortedUnique(Keys(a), Keys(b));
    forall i | 0 <= i < |a| ensures a[i] == b[i] {
      assert Keys(a)[i] == Keys(b)[i];
    }
  }

  /** SELECT ... ORDER BY key */
  method SelectMessages(composerId: Text, core: map<Text, Row>) returns (bubbles: seq<Row>)
    requires forall k :: k in core ==> core[k].key == k
    ensures InKeyOrder(composerId, core, bubbles)
  {
    hide StrictlySorted;
    var keys := SortTexts(MessageKeys(composerId, core));
    forall i | 0 <= i < |keys| ensures keys[i] in core {
      assert keys[i] in Elements(keys);
    }
    bubbles := seq(|keys|, i requires 0 <= i < |keys| => core[keys[i]]);
    assert Keys(bubbles) == keys;
  }

  lemma StagedServes(kv: map<Text, Row>)
    requires forall k :: k in kv ==> kv[k].key == k
    ensures Serves((key: Text, remaining: nat) => StagedStore(kv)(key), StagedStore(kv))
  {
  }

  /** The checks after the inserts: the core again, and the closure. */
  method StageCore(c: Codec, rd: Reader, r: RowReader, m: Manifest, core: map<Text, Row>, kv: map<Text, Row>)
    returns (ok: bool, ghost bubbles: seq<Row>)
    requires HeaderOk(m.header) && (forall k :: k in core ==> core[k].key == k)
    requires forall k :: k in kv ==> kv[k].key == k
    ensures InKeyOrder(m.composerId, core, bubbles)
    ensures ok <==> CoreAccepted(c, rd, r, m, core, kv, bubbles)
  {
    hide HeaderOk, InKeyOrder, AllFound, StatesOf, CoreText, Completable, Faithful, Exact, Serves, StagedStore;
    hide CoreOpen, CoreMiddle, CoreTail, Items, Stringify, RowsJson, RowJson, JsonString.WellFormed, JsonString.Utf8;
    hide Ascii;
    var rows := SelectMessages(m.composerId, core);
    bubbles := rows;
    if ComposerKey(m.composerId) !in core {
      return false, bubbles;
    }
    var composer := core[ComposerKey(m.composerId)];
    var hash := new JsonString.HashSink();
    CorePartsWellFormed();
    hash.Update(CoreOpen());
    var states, found := StageMessages(r, m, composer, rows, hash);
    if states == None || !found {
      BadIndexFindsNothing(r.visible(composer), m.composerId, rows);
      return false, bubbles;
    }
    FinishCoreHash(hash, composer, m.header);
    HashedText(hash, m.header, composer, rows);
    if |rows| != m.bubbleCount || |kv| != m.agentKvBlobCount || c.sha256(hash.bytes) != m.chatCoreHash {
      return false, bubbles;
    }
    StagedServes(kv);
    var walked, reached := WalkAgentKvReachability(StagedWorld(c, rd, kv),
                                                   (key: Text, remaining: nat) => StagedStore(kv)(key), states.value,
                                                   GraphLimits(), true);
    return walked.complete, bubbles;
  }

  lemma BadIndexFindsNothing(index: VisibleIndex, composerId: Text, bubbles: seq<Row>)
    ensures index == BadIndex ==> !AllFound(index, composerId, bubbles)
  {
  }

  /** stageChunkedChat */
  method StageChunkedChat(c: Codec, rd: Reader, r: RowReader, m: Manifest, contents: seq<PartContent>)
    returns (ok: bool)
    requires HeaderOk(m.header)
    ensures ok <==> StageAccepts(c, rd, r, m, contents)
  {
    hide HeaderOk, PartsAccepted, InKeyOrder, CoreAccepted, Bubbles.Index;
    if !m.continuationComplete || m.agentKvMissingCount != 0 {
      return false;
    }
    var staged, core, kv := StageParts(c, m, contents);
    if !staged {
      return false;
    }
    Bubbles.IndexKeyed(RowsOf(contents, Core));
    Bubbles.IndexKeyed(RowsOf(contents, Kv));
    ghost var bubbles;
    ok, bubbles := StageCore(c, rd, r, m, core, kv);
    if !ok {
      forall other | InKeyOrder(m.composerId, core, other) ensures !CoreAccepted(c, rd, r, m, core, kv, other) {
        InKeyOrderOnce(m.composerId, core, bubbles, other);
      }
    }
  }

  // ----- The round trip -----

  /** What the database guarantees of the captured rows: composerData under its
      key, messages in key order within the prefix range, valid UTF-8 text, and
      hashes that are 64 hexadecimal digits. */
  ghost predicate FromDatabase(c: Codec, db: Text -> LookupResult, header: Header, composer: RawRow,
                               bubbles: seq<RawRow>)
  {
    && IsComposerId(header.composerId)
    && composer.key == ComposerKey(header.composerId) && TextIsUtf8(c, composer)
    && (forall i :: 0 <= i < |bubbles| ==> Prefix(header.composerId) <= bubbles[i].key && TextIsUtf8(c, bubbles[i]))
    && StrictlySorted(Keys(StoredRows(bubbles)))
    && Database(db)
    && (forall key ::
          db(key).Found? && db(key).valueType == Some(TextValue) && db(key).bytes.Some? ==>
            c.isUtf8(db(key).bytes.value))
    && (forall bytes :: IsId(c.sha256(bytes)))
  }

  predicate TextIsUtf8(c: Codec, raw: RawRow) {
    raw.valueType == TextClass ==> c.isUtf8(raw.bytes)
  }

  /** A message key staging takes: a non-empty id and at most 1200 units. */
  predicate WellFormedKey(composerId: Text, key: Text) {
    Prefix(composerId) < key && |key| <= MAX_KEY
  }

  /** The parser takes the manifest of every capture. */
  lemma CaptureParses(c: Codec, rd: Reader, r: RowReader, db: Text -> LookupResult, header: Header, composer: RawRow,
                      bubbles: seq<RawRow>, m: Manifest, parts: seq<Part>, sunk: seq<Id>)
    requires IsCapture(c, rd, r, db, header, composer, bubbles, m, parts, sunk)
    ensures ManifestOk(m)
  {
    hide StoredRow, CoreText, AllFound, CapturedClosure, RawOk, Reach.Content, BlobRow, StatesOf, PartBytes;
    DescribeSums(c, parts);
    CountSplits(parts);
    assert |PartsRows(parts, Core)| == 1 + |bubbles| && |PartsRows(parts, Kv)| == |sunk|;
    assert parts != [];
  }

  lemma {:induction false} DescribeSums(c: Codec, parts: seq<Part>)
    ensures RowSum(Describe(c, parts)) == PartsCount(parts) && ByteSum(Describe(c, parts)) == PartsBytes(parts)
  {
    hide PartBytes;
    if parts != [] {
      DescribeSums(c, parts[..|parts| - 1]);
      assert Describe(c, parts)[..|parts| - 1] == Describe(c, parts[..|parts| - 1]);
    }
  }

  // ----- Its rows -----

  lemma {:induction false} RowsOfParts(parts: seq<Part>, k: Kind)
    ensures RowsOf(ContentsOf(parts), k) == StagedRows(PartsRows(parts, k))
  {
    hide Staged;
    if parts != [] {
      var n := |parts| - 1;
      RowsOfParts(parts[..n], k);
      assert ContentsOf(parts)[..n] == ContentsOf(parts[..n]);
    }
  }

  lemma StagedSame(rows: seq<Row>)
    requires forall i :: 0 <= i < |rows| ==> rows[i].valueType.Some?
    ensures StagedRows(rows) == rows
  {
  }

  lemma {:induction false} InPartsRows(parts: seq<Part>, i: nat, row: Row)
    requires i < |parts| && row in parts[i].content.rows
    ensures row in PartsRows(parts, parts[i].content.kind)
  {
    if i < |parts| - 1 {
      InPartsRows(parts[..|parts| - 1], i, row);
    }
  }

  lemma {:induction false} FromPart(parts: seq<Part>, k: Kind, row: Row) returns (i: nat)
    requires row in PartsRows(parts, k)
    ensures i < |parts| && parts[i].content.kind == k && row in parts[i].content.rows
  {
    var n := |parts| - 1;
    if parts[n].content.kind == k && row in parts[n].content.rows {
      i := n;
    } else {
      i := FromPart(parts[..n], k, row);
    }
  }

  /** The first letters tell the three kinds of key apart. */
  lemma KeysApart(composerId: Text, id: Text, key: Text)
    ensures ComposerKey(composerId)[0] == 0x63 && Prefix(composerId)[0] == 0x62 && BlobKey(id)[0] == 0x61
    ensures Prefix(composerId) <= key ==> key != ComposerKey(composerId) && key != BlobKey(id)
    ensures |ComposerKey(composerId)| == 13 + |composerId|
  {
    assert Ascii("composerData:")[0] == 0x63 && Ascii("bubbleId:")[0] == 0x62;
    if Prefix(composerId) <= key {
      assert key[0] == Prefix(composerId)[0];
    }
  }

  lemma StoredOk(c: Codec, composerId: Text, raw: RawRow)
    requires RawOk(raw) && TextIsUtf8(c, raw)
    ensures StagedRowOk(c, composerId, Core, StoredRow(raw)) <==>
              AllowedKey(composerId, Core, raw.key) && |raw.key| <= MAX_KEY
  {
    Base64.DecodeEncode(raw.bytes);
    Base64.EncodeIsCanonical(raw.bytes);
  }

  /** A verified blob's row: what the sink wrote is what was read. */
  lemma BlobOk(c: Codec, rd: Reader, db: Text -> LookupResult, header: Header, composer: RawRow, bubbles: seq<RawRow>,
               id: Id)
    requires FromDatabase(c, db, header, composer, bubbles) && Reach.Content(World(db, c.sha256, rd), id).Good?
    ensures StagedRowOk(c, header.composerId, Kv, BlobRow(db, id)) && BlobRow(db, id).key == BlobKey(id)
    ensures var good := Reach.Content(World(db, c.sha256, rd), id);
            && RowBytes(BlobRow(db, id)) == good.bytes && BlobRow(db, id).valueType.Some?
            && good.valueType == Some(if BlobRow(db, id).valueType == Some(BlobClass) then BlobValue else TextValue)
  {
    hide StoredRows, StrictlySorted, TextIsUtf8, ComposerKey, Prefix, IsComposerId;
    var found := db(BlobKey(id));
    Base64.DecodeEncode(found.bytes.value);
    Base64.EncodeIsCanonical(found.bytes.value);
    BlobKeyIs(id);
  }

  lemma BlobKeyIs(id: Id)
    ensures BlobId(BlobKey(id)) == id && (IsId(id) ==> IsBlobKey(BlobKey(id)) && |BlobKey(id)| <= MAX_KEY)
  {
    assert BlobKey(id)[|BLOB_PREFIX|..] == id;
  }

  // ----- Distinct keys -----

  lemma OnceDistinct(a: seq<Row>, b: seq<Row>)
    requires Bubbles.DistinctKeys(a) && Bubbles.DistinctKeys(b) && Elements(Keys(a)) !! Elements(Keys(b))
    ensures Once(a, b)
  {
    hide Bubbles.Index;
    Bubbles.DistinctIndex(a);
    Bubbles.DistinctIndex(b);
    assert |Bubbles.Index(a)| == |Bubbles.Index(a).Keys| && |Bubbles.Index(b)| == |Bubbles.Index(b).Keys|;
    DisjointSize(Bubbles.Index(a).Keys, Bubbles.Index(b).Keys);
  }

  lemma DisjointSize<T>(a: set<T>, b: set<T>)
    requires a !! b
    ensures |a + b| == |a| + |b|
  {
  }

  lemma {:induction false} DistinctIds(ids: seq<Id>)
    requires |ids| == |Elements(ids)|
    ensures forall i, j :: 0 <= i < j < |ids| ==> ids[i] != ids[j]
  {
    if ids != [] {
      var n := |ids| - 1;
      assert ids == ids[..n] + [ids[n]];
      assert Elements(ids) == Elements(ids[..n]) + {ids[n]};
      ElementsSize(ids[..n]);
      AddedAgain(Elements(ids[..n]), ids[n]);
      DistinctIds(ids[..n]);
      forall i | 0 <= i < n ensures ids[i] != ids[n] {
        assert ids[..n][i] in Elements(ids[..n]);
      }
      forall i, j | 0 <= i < j < |ids| ensures ids[i] != ids[j] {
        if j < n {
          assert ids[..n][i] != ids[..n][j];
        }
      }
    }
  }

  lemma AddedAgain<T>(a: set<T>, x: T)
    ensures x in a ==> a + {x} == a
  {
  }

  /** The captured rows, first the core's, then the blobs'. */
  lemma CapturedDistinct(c: Codec, rd: Reader, db: Text -> LookupResult, header: Header, composer: RawRow,
                         bubbles: seq<RawRow>, sunk: seq<Id>)
    requires FromDatabase(c, db, header, composer, bubbles) && |sunk| == |Elements(sunk)|
    requires forall id :: id in sunk ==> Reach.Content(World(db, c.sha256, rd), id).Good?
    ensures var core, kv := [StoredRow(composer)] + StoredRows(bubbles), BlobRows(db, sunk);
            Bubbles.DistinctKeys(core) && Bubbles.DistinctKeys(kv) && Elements(Keys(core)) !! Elements(Keys(kv))
            && Once(core, kv)
  {
    hide Once, StrictlySorted, ComposerKey, Prefix, BlobKey, Reach.Content, BlobRow;
    var core, kv := [StoredRow(composer)] + StoredRows(bubbles), BlobRows(db, sunk);
    DistinctIds(sunk);
    forall i | 0 <= i < |sunk| ensures kv[i].key == BlobKey(sunk[i]) {
      BlobOk(c, rd, db, header, composer, bubbles, sunk[i]);
    }
    forall i, j | 0 <= i < j < |kv| ensures kv[i].key != kv[j].key {
      BlobKeyIs(sunk[i]);
      BlobKeyIs(sunk[j]);
    }
    forall i | 0 <= i < |bubbles| ensures bubbles[i].key != composer.key {
      KeysApart(header.composerId, [], bubbles[i].key);
    }
    forall i, j | 0 <= i < j < |core| ensures core[i].key != core[j].key {
      if i > 0 && core[i].key == core[j].key {
        assert Keys(StoredRows(bubbles))[i - 1] == Keys(StoredRows(bubbles))[j - 1];
        SortedNoDuplicates(Keys(StoredRows(bubbles)), i - 1, j - 1);
      }
    }
    forall i, j | 0 <= i < |core| && 0 <= j < |kv| ensures core[i].key != kv[j].key {
      KeysApart(header.composerId, sunk[j], core[i].key);
      if i > 0 {
        assert core[i].key == bubbles[i - 1].key;
      }
    }
    OnceDistinct(core, kv);
  }

  // ----- Acceptance -----

  lemma CapturedOrder(c: Codec, db: Text -> LookupResult, header: Header, composer: RawRow, bubbles: seq<RawRow>)
    requires FromDatabase(c, db, header, composer, bubbles)
    requires Bubbles.DistinctKeys([StoredRow(composer)] + StoredRows(bubbles))
    ensures var core := Bubbles.Index([StoredRow(composer)] + StoredRows(bubbles));
            && InKeyOrder(header.composerId, core, StoredRows(bubbles))
            && ComposerKey(header.composerId) in core && core[ComposerKey(header.composerId)] == StoredRow(composer)
  {
    hide StrictlySorted, ComposerKey, Prefix, Bubbles.Index, MessageKeys, StoredRow;
    var rows := [StoredRow(composer)] + StoredRows(bubbles);
    var core := Bubbles.Index(rows);
    Bubbles.DistinctIndex(rows);
    assert rows[0] == StoredRow(composer);
    StoredKey(composer);
    CapturedMessageKeys(c, db, header, composer, bubbles);
    forall i | 0 <= i < |bubbles|
      ensures StoredRows(bubbles)[i].key in core && core[StoredRows(bubbles)[i].key] == StoredRows(bubbles)[i]
    {
      assert rows[i + 1] == StoredRows(bubbles)[i];
    }
  }

  lemma StoredKey(raw: RawRow)
    ensures StoredRow(raw).key == raw.key
  {
  }

  lemma CapturedMessageKeys(c: Codec, db: Text -> LookupResult, header: Header, composer: RawRow, bubbles: seq<RawRow>)
    requires FromDatabase(c, db, header, composer, bubbles)
    requires Bubbles.DistinctKeys([StoredRow(composer)] + StoredRows(bubbles))
    ensures MessageKeys(header.composerId, Bubbles.Index([StoredRow(composer)] + StoredRows(bubbles))) ==
              Elements(Keys(StoredRows(bubbles)))
  {
    hide FromDatabase, ComposerKey, Prefix, Bubbles.Index, Bubbles.DistinctKeys, StoredRow, StoredRows, Keys;
    var rows := [StoredRow(composer)] + StoredRows(bubbles);
    Bubbles.DistinctIndex(rows);
    ComposerFirst(composer, bubbles);
    MessagesPrefixed(c, db, header, composer, bubbles);
    KeysApart(header.composerId, [], composer.key);
  }

  lemma ComposerFirst(composer: RawRow, bubbles: seq<RawRow>)
    ensures Elements(Keys([StoredRow(composer)] + StoredRows(bubbles))) ==
              {composer.key} + Elements(Keys(StoredRows(bubbles)))
  {
    assert Keys([StoredRow(composer)] + StoredRows(bubbles)) == [composer.key] + Keys(StoredRows(bubbles));
  }

  /** The keys a capture reads: the composer's, and messages under its prefix. */
  lemma MessagesPrefixed(c: Codec, db: Text -> LookupResult, header: Header, composer: RawRow, bubbles: seq<RawRow>)
    requires FromDatabase(c, db, header, composer, bubbles)
    ensures composer.key == ComposerKey(header.composerId)
    ensures forall k :: k in Elements(Keys(StoredRows(bubbles))) ==> Prefix(header.composerId) <= k
  {
    hide StrictlySorted, ComposerKey, Prefix, Database, TextIsUtf8, IsId;
    forall k | k in Elements(Keys(StoredRows(bubbles))) ensures Prefix(header.composerId) <= k {
      var i :| 0 <= i < |bubbles| && Keys(StoredRows(bubbles))[i] == k;
    }
  }

  lemma CapturedContent(c: Codec, rd: Reader, db: Text -> LookupResult, header: Header, composer: RawRow,
                        bubbles: seq<RawRow>, sunk: seq<Id>)
    requires FromDatabase(c, db, header, composer, bubbles) && Bubbles.DistinctKeys(BlobRows(db, sunk))
    requires forall id :: id in sunk ==> Reach.Content(World(db, c.sha256, rd), id).Good?
    ensures SameOn(World(db, c.sha256, rd), StagedWorld(c, rd, Bubbles.Index(BlobRows(db, sunk))), Elements(sunk))
  {
    hide FromDatabase, Bubbles.Index, Bubbles.DistinctKeys, Reach.Content, BlobRows, StagedWorld;
    SameReader(c, rd, db, Bubbles.Index(BlobRows(db, sunk)));
    forall id | id in Elements(sunk)
      ensures Reach.Content(World(db, c.sha256, rd), id) ==
                Reach.Content(StagedWorld(c, rd, Bubbles.Index(BlobRows(db, sunk))), id)
    {
      CapturedContentAt(c, rd, db, header, composer, bubbles, sunk, id);
    }
  }

  lemma SameReader(c: Codec, rd: Reader, db: Text -> LookupResult, kv: map<Text, Row>)
    ensures World(db, c.sha256, rd).rd == StagedWorld(c, rd, kv).rd
  {
  }

  lemma CapturedContentAt(c: Codec, rd: Reader, db: Text -> LookupResult, header: Header, composer: RawRow,
                          bubbles: seq<RawRow>, sunk: seq<Id>, id: Id)
    requires FromDatabase(c, db, header, composer, bubbles) && Bubbles.DistinctKeys(BlobRows(db, sunk))
    requires id in sunk && Reach.Content(World(db, c.sha256, rd), id).Good?
    ensures Reach.Content(World(db, c.sha256, rd), id) ==
              Reach.Content(StagedWorld(c, rd, Bubbles.Index(BlobRows(db, sunk))), id)
  {
    hide BlobKey, BlobRow, FromDatabase, Bubbles.Index, Bubbles.DistinctKeys, StagedRowOk;
    var rows := BlobRows(db, sunk);
    Bubbles.DistinctIndex(rows);
    var i :| 0 <= i < |sunk| && sunk[i] == id;
    BlobOk(c, rd, db, header, composer, bubbles, id);
    assert rows[i] == BlobRow(db, id);
    GoodIsHashed(World(db, c.sha256, rd), id);
    StagedContent(c, rd, Bubbles.Index(rows), id);
  }

  /** A staged row of a verified blob is read as that blob. */
  lemma StagedContent(c: Codec, rd: Reader, kv: map<Text, Row>, id: Id)
    requires BlobKey(id) in kv && kv[BlobKey(id)].key == BlobKey(id) && c.sha256(RowBytes(kv[BlobKey(id)])) == id
    ensures var row := kv[BlobKey(id)];
            Reach.Content(StagedWorld(c, rd, kv), id) ==
              Reach.Good(RowBytes(row), Some(if row.valueType == Some(BlobClass) then BlobValue else TextValue))
  {
    hide BlobKey, RowBytes;
  }

  lemma GoodIsHashed(w: World, id: Id)
    requires Reach.Content(w, id).Good?
    ensures w.sha256(Reach.Content(w, id).bytes) == id
  {
  }

  /** Each part's rows pass if every message key is well formed. */
  lemma PartRowsOk(c: Codec, rd: Reader, r: RowReader, db: Text -> LookupResult, header: Header, composer: RawRow,
                   bubbles: seq<RawRow>, m: Manifest, parts: seq<Part>, sunk: seq<Id>, i: nat)
    requires IsCapture(c, rd, r, db, header, composer, bubbles, m, parts, sunk)
    requires FromDatabase(c, db, header, composer, bubbles) && i < |parts|
    requires forall j :: 0 <= j < |bubbles| ==> WellFormedKey(header.composerId, bubbles[j].key)
    ensures RowsOk(c, header.composerId, parts[i].content)
  {
    hide IsCapture, FromDatabase, StagedRowOk, StoredRow, BlobRow, WellFormedKey;
    forall j | 0 <= j < |parts[i].content.rows|
      ensures StagedRowOk(c, header.composerId, parts[i].content.kind, parts[i].content.rows[j])
    {
      InPartsRows(parts, i, parts[i].content.rows[j]);
      CapturedRowOk(c, rd, r, db, header, composer, bubbles, m, parts, sunk, parts[i].content.kind,
                    parts[i].content.rows[j]);
    }
  }

  lemma CapturedRowOk(c: Codec, rd: Reader, r: RowReader, db: Text -> LookupResult, header: Header, composer: RawRow,
                      bubbles: seq<RawRow>, m: Manifest, parts: seq<Part>, sunk: seq<Id>, k: Kind, row: Row)
    requires IsCapture(c, rd, r, db, header, composer, bubbles, m, parts, sunk)
    requires FromDatabase(c, db, header, composer, bubbles)
    requires forall j :: 0 <= j < |bubbles| ==> WellFormedKey(header.composerId, bubbles[j].key)
    requires row in PartsRows(parts, k)
    ensures StagedRowOk(c, header.composerId, k, row)
  {
    hide StagedRowOk, StoredRow, BlobRow, PartOk, CoreText, AllFound, CapturedClosure, RawOk, StatesOf, Reach.Content;
    hide TextIsUtf8, Describe, ComposerKey, Prefix, StrictlySorted;
    if k == Core {
      if row == StoredRow(composer) {
        KeysApart(header.composerId, [], []);
        StoredOk(c, header.composerId, composer);
        ComposerAllowed(header.composerId, composer.key);
      } else {
        var i :| 0 <= i < |bubbles| && StoredRows(bubbles)[i] == row;
        StoredOk(c, header.composerId, bubbles[i]);
      }
    } else {
      var i :| 0 <= i < |sunk| && BlobRows(db, sunk)[i] == row;
      BlobOk(c, rd, db, header, composer, bubbles, sunk[i]);
    }
  }

  lemma ComposerAllowed(composerId: Text, key: Text)
    requires key == ComposerKey(composerId) && IsComposerId(composerId)
    ensures AllowedKey(composerId, Core, key) && |key| <= MAX_KEY
  {
    KeysApart(composerId, [], []);
  }

  /** And a part with a message key that is not well formed does not. */
  lemma BadKeyRefused(c: Codec, rd: Reader, r: RowReader, db: Text -> LookupResult, header: Header, composer: RawRow,
                      bubbles: seq<RawRow>, m: Manifest, parts: seq<Part>, sunk: seq<Id>, j: nat)
    requires IsCapture(c, rd, r, db, header, composer, bubbles, m, parts, sunk)
    requires FromDatabase(c, db, header, composer, bubbles)
    requires j < |bubbles| && !WellFormedKey(header.composerId, bubbles[j].key)
    ensures exists i :: 0 <= i < |parts| && !RowsOk(c, header.composerId, parts[i].content)
  {
    hide StagedRowOk, StoredRow, BlobRow, PartOk, CoreText, AllFound, CapturedClosure, RawOk, StatesOf, Reach.Content;
    hide TextIsUtf8, Describe, ComposerKey, Prefix, StrictlySorted, PartsRows;
    var row := StoredRow(bubbles[j]);
    assert StoredRows(bubbles)[j] == row;
    var i := FromPart(parts, Core, row);
    StoredOk(c, header.composerId, bubbles[j]);
    KeysApart(header.composerId, [], bubbles[j].key);
    assert !StagedRowOk(c, header.composerId, Core, row);
    var n :| 0 <= n < |parts[i].content.rows| && parts[i].content.rows[n] == row;
    assert !RowsOk(c, header.composerId, parts[i].content);
  }

  lemma CapturedAuthentic(c: Codec, rd: Reader, r: RowReader, db: Text -> LookupResult, header: Header,
                          composer: RawRow, bubbles: seq<RawRow>, m: Manifest, parts: seq<Part>, sunk: seq<Id>)
    requires IsCapture(c, rd, r, db, header, composer, bubbles, m, parts, sunk)
    ensures |parts| == |m.parts| && forall i :: 0 <= i < |parts| ==> Authentic(c, m, m.parts[i], parts[i].content)
  {
    hide StoredRow, BlobRow, CoreText, AllFound, CapturedClosure, RawOk, StatesOf, Reach.Content, PartBytes, PartsRows;
    hide PartsBytes;
  }

  /** A complete capture is staged again, core hash and all, exactly when every
      message key is well formed: capture takes a message with an empty id or an
      overlong key, staging does not. */
  lemma CaptureStages(c: Codec, rd: Reader, r: RowReader, db: Text -> LookupResult, header: Header, composer: RawRow,
                      bubbles: seq<RawRow>, m: Manifest, parts: seq<Part>, sunk: seq<Id>)
    requires IsCapture(c, rd, r, db, header, composer, bubbles, m, parts, sunk) && m.continuationComplete
    requires FromDatabase(c, db, header, composer, bubbles)
    ensures StageAccepts(c, rd, r, m, ContentsOf(parts)) <==>
              forall i :: 0 <= i < |bubbles| ==> WellFormedKey(header.composerId, bubbles[i].key)
  {
    hide IsCapture, FromDatabase, RowsOk, Authentic, WellFormedKey, Once, InKeyOrder, CoreAccepted, Bubbles.Index;
    hide RowsOf, Describe;
    CapturedAuthentic(c, rd, r, db, header, composer, bubbles, m, parts, sunk);
    CaptureNames(c, rd, r, db, header, composer, bubbles, m, parts, sunk);
    if forall i :: 0 <= i < |bubbles| ==> WellFormedKey(header.composerId, bubbles[i].key) {
      forall i | 0 <= i < |parts| ensures RowsOk(c, header.composerId, parts[i].content) {
        PartRowsOk(c, rd, r, db, header, composer, bubbles, m, parts, sunk, i);
      }
      CaptureCoreAccepted(c, rd, r, db, header, composer, bubbles, m, parts, sunk);
    } else {
      var j :| 0 <= j < |bubbles| && !WellFormedKey(header.composerId, bubbles[j].key);
      BadKeyRefused(c, rd, r, db, header, composer, bubbles, m, parts, sunk, j);
      var i :| 0 <= i < |parts| && !RowsOk(c, header.composerId, parts[i].content);
      assert !PartAccepted(c, m, m.parts[i], ContentsOf(parts)[i]);
    }
  }

  lemma CaptureNames(c: Codec, rd: Reader, r: RowReader, db: Text -> LookupResult, header: Header, composer: RawRow,
                     bubbles: seq<RawRow>, m: Manifest, parts: seq<Part>, sunk: seq<Id>)
    requires IsCapture(c, rd, r, db, header, composer, bubbles, m, parts, sunk) && m.continuationComplete
    ensures m.composerId == header.composerId && m.agentKvMissingCount == 0
  {
    hide StoredRow, BlobRow, CoreText, AllFound, CapturedClosure, RawOk, StatesOf, Reach.Content, PartOk, PartsRows;
    hide PartsBytes, Describe;
  }

  lemma CapturedRowsOf(c: Codec, rd: Reader, r: RowReader, db: Text -> LookupResult, header: Header, composer: RawRow,
                       bubbles: seq<RawRow>, m: Manifest, parts: seq<Part>, sunk: seq<Id>)
    requires IsCapture(c, rd, r, db, header, composer, bubbles, m, parts, sunk)
    requires FromDatabase(c, db, header, composer, bubbles)
    ensures RowsOf(ContentsOf(parts), Core) == [StoredRow(composer)] + StoredRows(bubbles)
    ensures RowsOf(ContentsOf(parts), Kv) == BlobRows(db, sunk)
  {
    hide FromDatabase, PartOk, CoreText, AllFound, CapturedClosure, RawOk, StatesOf, Reach.Content, Describe, PartsRows;
    hide RowsOf, StagedRows, BlobRow;
    RowsOfParts(parts, Core);
    RowsOfParts(parts, Kv);
    forall i | 0 <= i < |sunk| ensures BlobRows(db, sunk)[i].valueType.Some? {
      BlobOk(c, rd, db, header, composer, bubbles, sunk[i]);
    }
    StagedSame([StoredRow(composer)] + StoredRows(bubbles));
    StagedSame(BlobRows(db, sunk));
  }

  lemma CaptureCoreAccepted(c: Codec, rd: Reader, r: RowReader, db: Text -> LookupResult, header: Header,
                            composer: RawRow, bubbles: seq<RawRow>, m: Manifest, parts: seq<Part>, sunk: seq<Id>)
    requires IsCapture(c, rd, r, db, header, composer, bubbles, m, parts, sunk) && m.continuationComplete
    requires FromDatabase(c, db, header, composer, bubbles)
    ensures Once(RowsOf(ContentsOf(parts), Core), RowsOf(ContentsOf(parts), Kv))
    ensures var core := Bubbles.Index(RowsOf(ContentsOf(parts), Core));
            var kv := Bubbles.Index(RowsOf(ContentsOf(parts), Kv));
            InKeyOrder(m.composerId, core, StoredRows(bubbles))
            && CoreAccepted(c, rd, r, m, core, kv, StoredRows(bubbles))
  {
    hide FromDatabase, PartOk, CoreText, AllFound, RawOk, StatesOf, Reach.Content, Describe, PartsRows, RowsOf, BlobRow;
    hide Bubbles.Index, Once, InKeyOrder, Bubbles.DistinctKeys, StoredRow, SeedsFit, SameOn, ComposerKey, Ids;
    CapturedRowsOf(c, rd, r, db, header, composer, bubbles, m, parts, sunk);
    CapturedDistinct(c, rd, db, header, composer, bubbles, sunk);
    CapturedOrder(c, db, header, composer, bubbles);
    CapturedContent(c, rd, db, header, composer, bubbles, sunk);
    Bubbles.DistinctIndex(BlobRows(db, sunk));
    var states := StatesOf(r, header.composerId, StoredRow(composer), StoredRows(bubbles), |bubbles|).value;
    var reached :| CompletableWith(World(db, c.sha256, rd), GraphLimits(), true, states, reached)
                   && Ids(reached) == Elements(sunk);
    CompletableElsewhere(World(db, c.sha256, rd), StagedWorld(c, rd, Bubbles.Index(BlobRows(db, sunk))), GraphLimits(),
                         true, states, reached);
  }
}
