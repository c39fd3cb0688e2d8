/** Capturing a chat as bounded parts and staging it again, src/chat/chunked.ts:
    a complete capture of rows with well-formed keys is accepted. */
module ChunkedChat {
  import opened Basics
  import opened Schema
  import opened Reach
  import opened Seeds
  import opened Walker
  import opened Transfer
  import opened Portable
  import opened Canonical
  import opened Chunks
  import ChatMerge
  import JsonString
  import Base64

  const MAX_KEY := 1_200
  const MAX_STATES := 50_000
  const MAX_STATE_UNITS := 32 * 1024 * 1024
  const GRAPH_NODES := 50_000
  const GRAPH_DEPTH := 256

  // ----- What the rows say -----

  datatype VisibleIndex = BadIndex | NoIndex | Index(ids: set<Text>)

  datatype RowState = BadState | NoState | HasState(text: Text)

  /** The message index of composerData and the continuation state of a row. */
  datatype RowReader = RowReader(visible: Row -> VisibleIndex, state: Row -> RowState)

  function Prefix(composerId: Text): Text {
    ChatMerge.BubblePrefix(composerId)
  }

  function ComposerKey(composerId: Text): Text {
    Ascii("composerData:") + composerId
  }

  /** key.slice(prefix.length) */
  function MessageId(composerId: Text, row: Row): Text {
    if |row.key| < |Prefix(composerId)| then [] else row.key[|Prefix(composerId)|..]
  }

  predicate Shown(index: VisibleIndex, id: Text) {
    index == NoIndex || (index.Index? && id in index.ids)
  }

  function StateUnits(states: seq<Text>): nat {
    if states == [] then 0 else StateUnits(states[..|states| - 1]) + |states[|states| - 1]|
  }

  /** addState: nothing when a state is invalid or the seeds exceed their limits. */
  function AddState(r: RowReader, row: Row, states: Option<seq<Text>>): Option<seq<Text>> {
    if states == None then None
    else
      match r.state(row)
      case BadState => None
      case NoState => states
      case HasState(t) =>
        if t in states.value then states
        else if StateUnits(states.value) + |t| > MAX_STATE_UNITS || |states.value| >= MAX_STATES then None
        else Some(states.value + [t])
  }

  /** Seeds of composerData and the shown ones of the first n messages. */
  function StatesOf(r: RowReader, composerId: Text, composer: Row, bubbles: seq<Row>, n: nat): Option<seq<Text>>
    requires n <= |bubbles|
  {
    if n == 0 then AddState(r, composer, Some([]))
    else
      var states := StatesOf(r, composerId, composer, bubbles, n - 1);
      if states.Some? && Shown(r.visible(composer), MessageId(composerId, bubbles[n - 1])) then
        AddState(r, bubbles[n - 1], states)
      else states
  }

  function MessageIds(composerId: Text, bubbles: seq<Row>): set<Text> {
    set row | row in bubbles :: MessageId(composerId, row)
  }

  /** Every indexed message is there. */
  predicate AllFound(index: VisibleIndex, composerId: Text, bubbles: seq<Row>) {
    index == NoIndex || (index.Index? && index.ids <= MessageIds(composerId, bubbles))
  }

  /** The message is shown: there is no message index, or its id is in it. */
  ghost predicate IsShown(index: VisibleIndex, composerId: Text, row: Row) {
    index == NoIndex
    || (index.Index? && exists id :: id in index.ids && row.key == Ascii("bubbleId:") + composerId + Ascii(":") + id)
  }

  /** composerData or one of the first n messages, shown, has this to say of its
      continuation state. */
  ghost predicate SaysState(r: RowReader, composerId: Text, composer: Row, bubbles: seq<Row>, n: nat, s: RowState)
    requires n <= |bubbles|
  {
    r.state(composer) == s
    || exists i :: 0 <= i < n && IsShown(r.visible(composer), composerId, bubbles[i]) && r.state(bubbles[i]) == s
  }

  ghost predicate AllSaid(r: RowReader, composerId: Text, composer: Row, bubbles: seq<Row>, n: nat, ts: seq<Text>)
    requires n <= |bubbles|
  {
    && (forall i, j :: 0 <= i < j < |ts| ==> ts[i] != ts[j])
    && forall t :: t in ts ==> SaysState(r, composerId, composer, bubbles, n, HasState(t))
  }

  ghost predicate TooManyStates(r: RowReader, composerId: Text, composer: Row, bubbles: seq<Row>, n: nat)
    requires n <= |bubbles|
  {
    exists ts :: AllSaid(r, composerId, composer, bubbles, n, ts)
                 && (|ts| > MAX_STATES || StateUnits(ts) > MAX_STATE_UNITS)
  }

  /** The seeds are the distinct states of composerData and the shown messages,
      within the limits; there are none if one of them is invalid, or if some of
      them exceed the limits together, and for no other cause. */
  lemma {:induction false} StatesAre(r: RowReader, composerId: Text, composer: Row, bubbles: seq<Row>, n: nat)
    requires n <= |bubbles| && forall i :: 0 <= i < |bubbles| ==> Prefix(composerId) <= bubbles[i].key
    ensures var states := StatesOf(r, composerId, composer, bubbles, n);
            if states.Some? then
              && AllSaid(r, composerId, composer, bubbles, n, states.value)
              && (forall t :: SaysState(r, composerId, composer, bubbles, n, HasState(t)) ==> t in states.value)
              && !SaysState(r, composerId, composer, bubbles, n, BadState)
              && |states.value| <= MAX_STATES && StateUnits(states.value) <= MAX_STATE_UNITS
            else
              || SaysState(r, composerId, composer, bubbles, n, BadState)
              || TooManyStates(r, composerId, composer, bubbles, n)
  {
    hide StateUnits, Prefix, IsShown;
    if n == 0 {
      NoUnits();
      OneState(r, composer, []);
      SaidFirst(r, composerId, composer, bubbles);
    } else {
      StatesAre(r, composerId, composer, bubbles, n - 1);
      var states := StatesOf(r, composerId, composer, bubbles, n - 1);
      ShownMeans(r.visible(composer), composerId, bubbles[n - 1]);
      SaidNext(r, composerId, composer, bubbles, n);
      if states.Some? {
        OneState(r, bubbles[n - 1], states.value);
      }
    }
  }

  lemma NoUnits()
    ensures StateUnits([]) == 0
  {
  }

  lemma ShownMeans(index: VisibleIndex, composerId: Text, row: Row)
    requires Prefix(composerId) <= row.key
    ensures Shown(index, MessageId(composerId, row)) <==> IsShown(index, composerId, row)
  {
    var prefix := Ascii("bubbleId:") + composerId + Ascii(":");
    assert Prefix(composerId) == prefix;
    assert row.key == prefix + MessageId(composerId, row);
    forall id | row.key == prefix + id ensures id == MessageId(composerId, row) {
      assert (prefix + id)[|prefix|..] == id;
    }
  }

  lemma OneState(r: RowReader, row: Row, states: seq<Text>)
    ensures var after := AddState(r, row, Some(states));
            match r.state(row)
            case BadState => after == None
            case NoState => after == Some(states)
            case HasState(t) =>
              if t in states then after == Some(states)
              else
                && StateUnits(states + [t]) == StateUnits(states) + |t|
                && if |states + [t]| > MAX_STATES || StateUnits(states + [t]) > MAX_STATE_UNITS then after == None
                   else after == Some(states + [t])
  {
    if r.state(row).HasState? {
      var t := r.state(row).text;
      assert (states + [t])[..|states|] == states;
    }
  }

  lemma SaidFirst(r: RowReader, composerId: Text, composer: Row, bubbles: seq<Row>)
    ensures forall s :: SaysState(r, composerId, composer, bubbles, 0, s) <==> r.state(composer) == s
    ensures r.state(composer).HasState? ==> AllSaid(r, composerId, composer, bubbles, 0, [r.state(composer).text])
    ensures AllSaid(r, composerId, composer, bubbles, 0, [])
    ensures forall t: Text :: [] + [t] == [t]
  {
    hide IsShown;
  }

  /** One more message says what it says if it is shown. */
  lemma SaidNext(r: RowReader, composerId: Text, composer: Row, bubbles: seq<Row>, n: nat)
    requires 0 < n <= |bubbles|
    ensures forall s ::
              SaysState(r, composerId, composer, bubbles, n, s) <==>
                || SaysState(r, composerId, composer, bubbles, n - 1, s)
                || (IsShown(r.visible(composer), composerId, bubbles[n - 1]) && r.state(bubbles[n - 1]) == s)
    ensures forall ts ::
              AllSaid(r, composerId, composer, bubbles, n - 1, ts) ==> AllSaid(r, composerId, composer, bubbles, n, ts)
    ensures forall ts, t ::
              AllSaid(r, composerId, composer, bubbles, n - 1, ts) && t !in ts
              && SaysState(r, composerId, composer, bubbles, n, HasState(t)) ==>
                AllSaid(r, composerId, composer, bubbles, n, ts + [t])
  {
    hide IsShown;
    forall s | SaysState(r, composerId, composer, bubbles, n - 1, s)
      ensures SaysState(r, composerId, composer, bubbles, n, s)
    {
      if r.state(composer) != s {
        var i :| 0 <= i < n - 1 && IsShown(r.visible(composer), composerId, bubbles[i]) && r.state(bubbles[i]) == s;
      }
    }
  }

  /** All messages of the index are there, each under its own key. */
  lemma AllFoundMeans(index: VisibleIndex, composerId: Text, bubbles: seq<Row>)
    requires forall i :: 0 <= i < |bubbles| ==> Prefix(composerId) <= bubbles[i].key
    ensures AllFound(index, composerId, bubbles) <==>
              index == NoIndex || (index.Index? && forall id :: id in index.ids ==> Holds(composerId, bubbles, id))
  {
    hide Prefix, MessageId;
    forall id ensures id in MessageIds(composerId, bubbles) <==> Holds(composerId, bubbles, id) {
      forall row | row in bubbles
        ensures MessageId(composerId, row) == id <==> row.key == Ascii("bubbleId:") + composerId + Ascii(":") + id
      {
        KeyOfMessage(composerId, row, id);
      }
    }
  }

  ghost predicate Holds(composerId: Text, bubbles: seq<Row>, id: Text) {
    exists row :: row in bubbles && row.key == Ascii("bubbleId:") + composerId + Ascii(":") + id
  }

  lemma KeyOfMessage(composerId: Text, row: Row, id: Text)
    requires Prefix(composerId) <= row.key
    ensures MessageId(composerId, row) == id <==> row.key == Ascii("bubbleId:") + composerId + Ascii(":") + id
  {
    var prefix := Ascii("bubbleId:") + composerId + Ascii(":");
    assert Prefix(composerId) == prefix;
    assert row.key == prefix + row.key[|prefix|..];
    if row.key == prefix + id {
      assert row.key[|prefix|..] == id;
    }
  }

  /** A database row can be captured if it is text, a blob or an empty null, of no
      more than 8 MiB. */
  lemma RawOkMeans(raw: RawRow)
    ensures RawOk(raw) <==>
              |raw.bytes| <= 0x80_0000 && raw.valueType != OtherClass
              && (raw.valueType == NullClass ==> raw.bytes == [])
  {
  }

  // ----- The manifest -----

  datatype Manifest = Manifest(
    composerId: Text, header: Header, parts: seq<Descriptor>, bubbleCount: nat,
    agentKvBlobCount: nat, agentKvMissingCount: nat, continuationComplete: bool, chatCoreHash: Text)

  datatype Descriptor = Descriptor(plainBytes: nat, hash: Text, rows: nat, kind: Kind)

  function RowSum(parts: seq<Descriptor>): nat {
    if parts == [] then 0 else RowSum(parts[..|parts| - 1]) + parts[|parts| - 1].rows
  }

  function ByteSum(parts: seq<Descriptor>): nat {
    if parts == [] then 0 else ByteSum(parts[..|parts| - 1]) + parts[|parts| - 1].plainBytes
  }

  /** What parseChunkedChat checks of counts and sizes. */
  predicate ManifestOk(m: Manifest) {
    && m.bubbleCount <= MAX_ROWS && m.agentKvBlobCount <= MAX_ROWS && m.agentKvMissingCount <= MAX_ROWS
    && 0 < |m.parts| <= MAX_PARTS
    && (forall i :: 0 <= i < |m.parts| ==> DescriptorOk(m.parts[i]))
    && ByteSum(m.parts) <= MAX_TOTAL && RowSum(m.parts) == m.bubbleCount + m.agentKvBlobCount + 1
  }

  predicate DescriptorOk(d: Descriptor) {
    0 < d.rows <= MAX_CHUNK_ROWS && 0 < d.plainBytes <= CHUNK_BYTES
  }

  method ParseChunkedChat(m: Manifest) returns (ok: bool)
    ensures ok <==> ManifestOk(m)
  {
    if m.bubbleCount > MAX_ROWS || m.agentKvBlobCount > MAX_ROWS || m.agentKvMissingCount > MAX_ROWS
       || |m.parts| == 0 || |m.parts| > MAX_PARTS {
      return false;
    }
    var total, rows := 0, 0;
    assert m.parts[..0] == [];
    for i := 0 to |m.parts|
      invariant total == ByteSum(m.parts[..i]) && rows == RowSum(m.parts[..i])
      invariant forall j :: 0 <= j < i ==> DescriptorOk(m.parts[j])
    {
      var p := m.parts[i];
      assert m.parts[..i + 1][..i] == m.parts[..i];
      if p.rows == 0 || p.rows > MAX_CHUNK_ROWS || p.plainBytes == 0 || p.plainBytes > CHUNK_BYTES {
        return false;
      }
      total, rows := total + p.plainBytes, rows + p.rows;
    }
    assert m.parts[..|m.parts|] == m.parts;
    return total <= MAX_TOTAL && rows == m.bubbleCount + m.agentKvBlobCount + 1;
  }

  // ----- Capturing -----

  /** The rows and the graph of one database generation. */
  ghost predicate Database(db: Text -> LookupResult) {
    forall key ::
      match db(key)
      case Found(k, bytes, t) => k == key && bytes.Some? && (t == Some(TextValue) || t == Some(BlobValue))
      case OverBudget => false
      case _ => true
  }

  function GraphLookup(db: Text -> LookupResult): (Text, nat) -> LookupResult {
    (key: Text, remaining: nat) => if RowSize(db(key)) > remaining then OverBudget else db(key)
  }

  lemma GraphServes(db: Text -> LookupResult)
    requires Database(db)
    ensures Serves(GraphLookup(db), db)
  {
  }

  function GraphLimits(): WalkLimits {
    WalkLimits(GRAPH_NODES, MAX_TOTAL, GRAPH_DEPTH)
  }

  /** portable: a row of a known storage class within the work limit. */
  predicate RawOk(raw: RawRow) {
    raw.Supported() && |raw.bytes| <= CHUNK_BYTES
  }

  /** The row the sink writes for a verified blob. */
  function BlobRow(db: Text -> LookupResult, id: Id): Row {
    match db(BlobKey(id))
    case Found(_, Some(bytes), t) => Row(BlobKey(id), Base64.Encode(bytes),
                                         Some(if t == Some(BlobValue) then BlobClass else TextClass))
    case _ => Row(BlobKey(id), [], Some(TextClass))
  }

  function BlobRows(db: Text -> LookupResult, ids: seq<Id>): seq<Row> {
    seq(|ids|, i requires 0 <= i < |ids| => BlobRow(db, ids[i]))
  }

  /** A capture: the parts hold exactly these rows, the manifest describes them,
      and its hash is that of the canonical core. */
  ghost predicate IsCapture(c: Codec, rd: Reader, r: RowReader, db: Text -> LookupResult, header: Header,
                            composer: RawRow, bubbles: seq<RawRow>, m: Manifest, parts: seq<Part>, sunk: seq<Id>)
  {
    && m.composerId == header.composerId
    && m.header == header
    && m.bubbleCount == |bubbles|
    && m.agentKvBlobCount == |sunk|
    && m.agentKvMissingCount <= GRAPH_NODES
    && RawOk(composer) && |bubbles| <= MAX_ROWS && (forall i :: 0 <= i < |bubbles| ==> RawOk(bubbles[i]))
    && PartsRows(parts, Core) == [StoredRow(composer)] + StoredRows(bubbles)
    && PartsRows(parts, Kv) == BlobRows(db, sunk)
    && (forall i :: 0 <= i < |parts| ==> PartOk(m.composerId, CHUNK_BYTES, parts[i]))
    && PartsBytes(parts) <= MAX_TOTAL && |parts| <= MAX_PARTS && m.parts == Describe(c, parts)
    && m.chatCoreHash ==
         c.sha256(JsonString.Utf8(CoreText(header.composerId, header, StoredRow(composer), StoredRows(bubbles))))
    && var index := r.visible(StoredRow(composer));
    && var states := StatesOf(r, header.composerId, StoredRow(composer), StoredRows(bubbles), |bubbles|);
    && AllFound(index, header.composerId, StoredRows(bubbles)) && states.Some?
    && (forall id :: id in sunk ==> Reach.Content(World(db, c.sha256, rd), id).Good?)
    && |sunk| == |Elements(sunk)| <= GRAPH_NODES
    && (m.continuationComplete ==> m.agentKvMissingCount == 0 && CapturedClosure(c, rd, db, states.value, sunk))
  }

  /** The walk of the capture was complete, and sank just what it reached. */
  ghost predicate CapturedClosure(c: Codec, rd: Reader, db: Text -> LookupResult, states: seq<Text>, sunk: seq<Id>) {
    && SeedsFit(rd, GraphLimits(), states, |states|)
    && exists reached ::
         CompletableWith(World(db, c.sha256, rd), GraphLimits(), true, states, reached)
         && Ids(reached) == Elements(sunk)
  }

  function Describe(c: Codec, parts: seq<Part>): seq<Descriptor> {
    seq(|parts|, i requires 0 <= i < |parts| => DescribePart(c, parts[i]))
  }

  function DescribePart(c: Codec, p: Part): Descriptor {
    Descriptor(p.plainBytes, c.sha256(PartBytes(p.content)), |p.content.rows|, p.content.kind)
  }

  datatype Captured = Captured(manifest: Manifest, parts: seq<Part>)

  predicate TooLarge(limit: nat, row: Row) {
    RowCost(row) + RESERVE > limit
  }

  /** Why a core is refused: its index, a row or a seed is bad, a row is missing
      or too large, or there is no room for them all. */
  ghost predicate CoreRefused(r: RowReader, composerId: Text, limit: nat, composer: Row, bubbles: seq<RawRow>) {
    var rows := StoredRows(bubbles);
    || |bubbles| > MAX_ROWS || (exists i :: 0 <= i < |bubbles| && !RawOk(bubbles[i]))
    || r.visible(composer) == BadIndex
    || StatesOf(r, composerId, composer, rows, |rows|) == None
    || !AllFound(r.visible(composer), composerId, rows)
    || RowsRefused(composerId, limit, [composer] + rows, [])
  }

  /** A row is too large, or there is no room for the rows. */
  ghost predicate RowsRefused(composerId: Text, limit: nat, core: seq<Row>, kv: seq<Row>) {
    (exists row :: row in core + kv && TooLarge(limit, row)) || Overflows(composerId, limit, core, kv)
  }

  lemma RowsRefusedMore(composerId: Text, limit: nat, core: seq<Row>, kv: seq<Row>, row: Row, moreCore: seq<Row>,
                        moreKv: seq<Row>)
    requires core <= moreCore && kv <= moreKv && row in moreCore + moreKv
    requires TooLarge(limit, row) || Overflows(composerId, limit, core, kv)
    ensures RowsRefused(composerId, limit, moreCore, moreKv)
  {
    hide TooLarge, Overflows;
    if !TooLarge(limit, row) {
      OverflowsMore(composerId, limit, core, kv, moreCore, moreKv);
    }
  }

  /** Once the seeds are refused they stay refused. */
  lemma {:induction false} StatesStayRefused(r: RowReader, composerId: Text, composer: Row, rows: seq<Row>, i: nat,
                                             n: nat)
    requires i <= n <= |rows| && StatesOf(r, composerId, composer, rows, i) == None
    ensures StatesOf(r, composerId, composer, rows, n) == None
    decreases n
  {
    hide AddState, Shown, MessageId;
    if i < n {
      StatesStayRefused(r, composerId, composer, rows, i, n - 1);
    }
  }

  /** One message: a comma, its canonical text, and its place in a part. */
  method CaptureRow(row: Row, first: bool, packer: Packer, hash: JsonString.HashSink) returns (ok: bool)
    requires packer.Valid() && hash.Valid() && packer.kind == Core && packer.Open()
    modifies packer, hash
    ensures ok ==>
              packer.Valid() && hash.Valid() && hash.clean == old(hash.clean) && packer.kind == Core
              && packer.rows != []
    ensures !ok ==>
              TooLarge(packer.limit, row)
              || Overflows(packer.composerId, packer.limit, old(packer.Contents(Core)), old(packer.Contents(Kv)))
    ensures ok ==> hash.text == old(hash.text) + (if first then [] else Ascii(",")) + Stringify(RowJson(row))
    ensures ok ==>
              packer.Contents(Core) == old(packer.Contents(Core)) + [row]
              && packer.Contents(Kv) == old(packer.Contents(Kv))
  {
    hide JsonString.WellFormed, RowJson, Stringify, PartOk, Ascii;
    CorePartsWellFormed();
    RowWellFormed(row);
    assert hash.text + [] == hash.text;
    if !first {
      hash.Update(Ascii(","));
    }
    hash.Update(Stringify(RowJson(row)));
    ok := packer.Append(row);
  }

  /** The loop over the messages: hashed, remembered and appended in key order. */
  method CaptureMessages(r: RowReader, header: Header, composer: Row, bubbles: seq<RawRow>, packer: Packer,
                         hash: JsonString.HashSink)
    returns (states: Option<seq<Text>>, found: bool)
    requires packer.Valid() && hash.Valid() && packer.kind == Core && packer.composerId == header.composerId
    requires packer.rows != []
    requires packer.Contents(Core) == [composer] && packer.Contents(Kv) == []
    modifies packer, hash
    ensures states == None ==> CoreRefused(r, header.composerId, packer.limit, composer, bubbles)
    ensures states.Some? ==>
              packer.Valid() && hash.Valid() && hash.clean == old(hash.clean) && packer.kind == Core
              && |bubbles| <= MAX_ROWS
    ensures states.Some? ==> hash.text == old(hash.text) + Items(RowsJson(StoredRows(bubbles)))
    ensures states.Some? ==>
              packer.Contents(Core) == old(packer.Contents(Core)) + StoredRows(bubbles)
              && packer.Contents(Kv) == old(packer.Contents(Kv))
    ensures states.Some? ==> states == StatesOf(r, header.composerId, composer, StoredRows(bubbles), |bubbles|)
    ensures states.Some? ==>
              found == AllFound(r.visible(composer), header.composerId, StoredRows(bubbles))
              && forall i :: 0 <= i < |bubbles| ==> RawOk(bubbles[i])
  {
    hide StoredRow, Items, RowsJson, RowJson, Stringify, AddState, Shown, Packer.Valid, Packer.Contents;
    hide JsonString.HashSink.Valid, RawOk, MessageIds, MessageId, RowsRefused, Overflows, TooLarge;
    var index := r.visible(composer);
    states := AddState(r, composer, Some([]));
    found := false;
    ghost var rows := StoredRows(bubbles);
    if index == BadIndex || states == None {
      if states == None {
        StatesStayRefused(r, header.composerId, composer, rows, 0, |rows|);
      }
      return None, false;
    }
    ghost var start, before := hash.text, packer.Contents(Core);
    var remaining := if index.Index? then index.ids else {};
    RowsNone();
    MessagesNone(header.composerId);
    assert rows[..0] == [];
    for i := 0 to |bubbles|
      invariant packer.Valid() && hash.Valid() && hash.clean == old(hash.clean) && packer.kind == Core
      invariant packer.rows != [] && i <= MAX_ROWS
      invariant hash.text == start + Items(RowsJson(rows[..i]))
      invariant packer.Contents(Core) == before + rows[..i] && packer.Contents(Kv) == old(packer.Contents(Kv))
      invariant states.Some? && states == StatesOf(r, header.composerId, composer, rows, i)
      invariant index == NoIndex ==> remaining == {}
      invariant index.Index? ==> remaining == index.ids - MessageIds(header.composerId, rows[..i])
      invariant forall j :: 0 <= j < i ==> RawOk(bubbles[j])
    {
      if i >= MAX_ROWS || !RawOk(bubbles[i]) {
        return None, false;
      }
      var row := StoredRow(bubbles[i]);
      RowsStep(rows, i, start);
      MessagesStep(header.composerId, rows, i);
      if Shown(index, MessageId(header.composerId, row)) {
        remaining := remaining - {MessageId(header.composerId, row)};
        states := AddState(r, row, states);
        if states == None {
          StatesStayRefused(r, header.composerId, composer, rows, i + 1, |rows|);
          return None, false;
        }
      } else {
        NotShown(index, MessageId(header.composerId, row));
      }
      var ok := CaptureRow(row, i == 0, packer, hash);
      if !ok {
        CoreRowRefused(header.composerId, packer.limit, composer, rows, i);
        return None, false;
      }
      assert rows[..i + 1] == rows[..i] + [row];
    }
    assert rows[..|bubbles|] == rows;
    found := remaining == {};
    assert index.Index? ==> (remaining == {} <==> index.ids <= MessageIds(header.composerId, rows));
  }

  lemma NoRoomRefused(composerId: Text, limit: nat, core: seq<Row>, kv: seq<Row>)
    requires Overflows(composerId, limit, core, kv)
    ensures RowsRefused(composerId, limit, core, kv)
  {
    hide Overflows, TooLarge;
  }

  lemma CoreRowRefused(composerId: Text, limit: nat, composer: Row, rows: seq<Row>, i: nat)
    requires i < |rows| && (TooLarge(limit, rows[i]) || Overflows(composerId, limit, [composer] + rows[..i], []))
    ensures RowsRefused(composerId, limit, [composer] + rows, [])
  {
    hide TooLarge, Overflows, RowsRefused;
    assert [composer] + rows[..i] <= [composer] + rows;
    assert rows[i] == ([composer] + rows)[i + 1] && rows[i] in [composer] + rows + [];
    RowsRefusedMore(composerId, limit, [composer] + rows[..i], [], rows[i], [composer] + rows, []);
  }

  lemma MessagesNone(composerId: Text)
    ensures MessageIds(composerId, []) == {}
  {
  }

  lemma MessagesStep(composerId: Text, rows: seq<Row>, i: nat)
    requires i < |rows|
    ensures MessageIds(composerId, rows[..i + 1]) ==
              MessageIds(composerId, rows[..i]) + {MessageId(composerId, rows[i])}
  {
    hide MessageId;
    assert rows[..i + 1] == rows[..i] + [rows[i]];
    forall id
      ensures id in MessageIds(composerId, rows[..i + 1]) <==>
                id in MessageIds(composerId, rows[..i]) + {MessageId(composerId, rows[i])}
    {
      assert rows[i] in rows[..i + 1];
      if id in MessageIds(composerId, rows[..i]) {
        var row :| row in rows[..i] && MessageId(composerId, row) == id;
        assert row in rows[..i + 1];
      }
    }
  }

  lemma NotShown(index: VisibleIndex, id: Text)
    requires !Shown(index, id)
    ensures index.Index? ==> id !in index.ids
  {
  }

  /** The core: its rows packed, its seeds collected, its text hashed. */
  method CaptureCore(c: Codec, r: RowReader, header: Header, composerRow: Row, bubbles: seq<RawRow>, packer: Packer)
    returns (states: Option<seq<Text>>, coreHash: Text)
    requires HeaderOk(header) && packer.Valid() && packer.composerId == header.composerId && packer.kind == Core
    requires packer.Contents(Core) == [] && packer.Contents(Kv) == [] && packer.Open()
    modifies packer
    ensures states == None ==> CoreRefused(r, header.composerId, packer.limit, composerRow, bubbles)
    ensures states.Some? ==> packer.Open()
    ensures states.Some? ==> packer.Valid() && packer.kind == Kv && packer.rows == []
    ensures states.Some? ==> packer.Contents(Core) == [composerRow] + StoredRows(bubbles) && packer.Contents(Kv) == []
    ensures states.Some? ==> states == StatesOf(r, header.composerId, composerRow, StoredRows(bubbles), |bubbles|)
    ensures states.Some? ==>
              |bubbles| <= MAX_ROWS && AllFound(r.visible(composerRow), header.composerId, StoredRows(bubbles))
    ensures states.Some? ==> forall i :: 0 <= i < |bubbles| ==> RawOk(bubbles[i])
    ensures states.Some? ==>
              coreHash ==
                c.sha256(JsonString.Utf8(CoreText(header.composerId, header, composerRow, StoredRows(bubbles))))
  {
    hide HeaderOk, StoredRow, CoreText, PartOk, Packer.Valid, Packer.Contents, Ascii, AllFound, RawOk;
    hide JsonString.HashSink.Valid, JsonString.WellFormed, CoreOpen, CoreMiddle, CoreTail, Items, Stringify, RowsJson;
    hide RowJson, StatesOf, RowsRefused, Overflows;
    coreHash := [];
    var ok := packer.Append(composerRow);
    if !ok {
      assert composerRow in [composerRow] + StoredRows(bubbles) + [];
      RowsRefusedMore(header.composerId, packer.limit, [], [], composerRow, [composerRow] + StoredRows(bubbles), []);
      return None, coreHash;
    }
    var hash := new JsonString.HashSink();
    CorePartsWellFormed();
    hash.Update(CoreOpen());
    var found;
    states, found := CaptureMessages(r, header, composerRow, bubbles, packer, hash);
    if states == None || !found {
      return None, coreHash;
    }
    ok := packer.Flush();
    if !ok {
      NoRoomRefused(header.composerId, packer.limit, [composerRow] + StoredRows(bubbles), []);
      return None, coreHash;
    }
    packer.SwitchToBlobs();
    FinishCoreHash(hash, composerRow, header);
    HashedText(hash, header, composerRow, StoredRows(bubbles));
    coreHash := c.sha256(hash.bytes);
  }

  /** Math.min(CHAT_CHUNK_BYTES, store.maxPayloadBytes) */
  function PayloadLimit(maxPayloadBytes: nat): nat {
    if CHUNK_BYTES < maxPayloadBytes then CHUNK_BYTES else maxPayloadBytes
  }

  /** captureChunkedChat: refused only for a bad or missing row, or for want of room. */
  method CaptureChunkedChat(c: Codec, rd: Reader, r: RowReader, db: Text -> LookupResult, header: Header,
                            composer: Option<RawRow>, bubbles: seq<RawRow>, maxPayloadBytes: nat)
    returns (captured: Option<Captured>, ghost sunk: seq<Id>)
    requires Database(db) && HeaderOk(header) && IsComposerId(header.composerId)
    ensures captured.Some? ==>
              composer.Some?
              && IsCapture(c, rd, r, db, header, composer.value, bubbles, captured.value.manifest, captured.value.parts,
                           sunk)
    ensures captured.Some? ==>
              forall i :: 0 <= i < |captured.value.parts| ==> captured.value.parts[i].plainBytes <= maxPayloadBytes
    ensures captured.Some? ==> Greedy(PayloadLimit(maxPayloadBytes), ContentsOf(captured.value.parts))
    ensures (forall id :: id in sunk ==> Reach.Content(World(db, c.sha256, rd), id).Good?)
    ensures |sunk| == |Elements(sunk)| <= GRAPH_NODES
    ensures captured == None ==> composer == None || !RawOk(composer.value)
                                 || CoreRefused(r, header.composerId, PayloadLimit(maxPayloadBytes),
                                                StoredRow(composer.value), bubbles)
                                 || RowsRefused(header.composerId, PayloadLimit(maxPayloadBytes),
                                                [StoredRow(composer.value)] + StoredRows(bubbles), BlobRows(db, sunk))
  {
    hide HeaderOk, StoredRow, CoreText, PartOk, Packer.Valid, Packer.Contents, Completable, Faithful, Exact, Database;
    hide Serves, IsCapture, AllFound, CapturedClosure, RawOk, StatesOf, IsComposerId, StoredRows, Describe, PartsRows;
    hide PartsBytes, BlobRows, CoreRefused, RowsRefused, Overflows, Greedy, Reach.Content;
    sunk := [];
    if composer == None || !RawOk(composer.value) {
      return None, sunk;
    }
    var composerRow := StoredRow(composer.value);
    var packer := new Packer(header.composerId, maxPayloadBytes);
    var states, coreHash := CaptureCore(c, r, header, composerRow, bubbles, packer);
    if states == None {
      return None, sunk;
    }
    GraphServes(db);
    var walked, reached := WalkAgentKvReachability(World(db, c.sha256, rd), GraphLookup(db), states.value,
                                                   GraphLimits(), true);
    sunk := walked.sunk;
    FaithfulSunk(World(db, c.sha256, rd), GraphLimits(), states.value, walked, reached);
    var ok := AppendBlobs(db, walked.sunk, packer);
    if !ok {
      return None, sunk;
    }
    EmptyFront(BlobRows(db, sunk), StoredRows(bubbles));
    ok := packer.Flush();
    if !ok {
      NoRoomRefused(header.composerId, packer.limit, [composerRow] + StoredRows(bubbles), BlobRows(db, sunk));
      return None, sunk;
    }
    var manifest := Manifest(header.composerId, header, Describe(c, packer.parts), |bubbles|, |walked.sunk|,
                             |walked.issues|, walked.complete, coreHash);
    PackedParts(packer);
    if walked.complete {
      CompleteSunk(c, rd, db, states.value, walked, reached);
    }
    CaptureIs(c, rd, r, db, header, composer.value, bubbles, manifest, packer.parts, walked, reached, states.value);
    return Some(Captured(manifest, packer.parts)), sunk;
  }

  lemma HashedText(hash: JsonString.HashSink, header: Header, composer: Row, bubbles: seq<Row>)
    requires hash.Valid() && hash.clean
    requires hash.text ==
               [] + CoreOpen() + Items(RowsJson(bubbles)) + CoreMiddle() + Stringify(RowJson(composer))
               + CoreTail(header.composerId, header)
    ensures hash.bytes == JsonString.Utf8(CoreText(header.composerId, header, composer, bubbles))
  {
    CoreEnclose([], header.composerId, header, composer, bubbles);
    hide CoreText, CoreOpen, Items, RowsJson, CoreMiddle, Stringify, RowJson, CoreTail;
    var t := CoreText(header.composerId, header, composer, bubbles);
    assert [] + t == t;
  }

  /** The sink's appends, blob after blob. */
  method AppendBlobs(db: Text -> LookupResult, ids: seq<Id>, packer: Packer) returns (ok: bool)
    requires packer.Valid() && packer.kind == Kv && packer.Open() && packer.Contents(Kv) == []
    modifies packer
    ensures ok ==> packer.Valid() && packer.kind == Kv
    ensures !ok ==> RowsRefused(packer.composerId, packer.limit, old(packer.Contents(Core)), BlobRows(db, ids))
    ensures ok ==>
              packer.Contents(Kv) == old(packer.Contents(Kv)) + BlobRows(db, ids)
              && packer.Contents(Core) == old(packer.Contents(Core))
  {
    hide PartOk, BlobRow, Packer.Valid, Packer.Contents, RowsRefused, Overflows;
    ghost var rows, before, core := BlobRows(db, ids), packer.Contents(Kv), packer.Contents(Core);
    for i := 0 to |ids|
      invariant packer.Valid() && packer.kind == Kv && packer.Open()
      invariant packer.Contents(Kv) == before + rows[..i] && packer.Contents(Core) == old(packer.Contents(Core))
    {
      ok := packer.Append(BlobRow(db, ids[i]));
      if !ok {
        assert rows[i] in core + rows && [] + rows[..i] == rows[..i];
        RowsRefusedMore(packer.composerId, packer.limit, core, rows[..i], rows[i], core, rows);
        return false;
      }
      assert rows[..i + 1] == rows[..i] + [rows[i]];
    }
    assert rows[..|ids|] == rows;
    return true;
  }

  lemma PackedParts(packer: Packer)
    requires packer.Valid() && packer.rows == [] && packer.limit <= CHUNK_BYTES
    ensures forall k :: packer.Contents(k) == PartsRows(packer.parts, k)
    ensures PartsBytes(packer.parts) <= MAX_TOTAL && |packer.parts| <= MAX_PARTS
    ensures Greedy(packer.limit, ContentsOf(packer.parts))
    ensures forall i ::
              0 <= i < |packer.parts| ==>
                PartOk(packer.composerId, CHUNK_BYTES, packer.parts[i]) && packer.parts[i].plainBytes <= packer.limit
  {
    GreedyFront(packer.limit, ContentsOf(packer.parts), PartContent(packer.composerId, packer.kind, packer.rows));
    forall i | 0 <= i < |packer.parts| ensures PartOk(packer.composerId, CHUNK_BYTES, packer.parts[i]) {
      PartOkWithin(packer.composerId, packer.limit, packer.parts[i]);
    }
  }

  /** A complete streaming walk sank exactly the ids of the closure. */
  lemma CompleteSunk(c: Codec, rd: Reader, db: Text -> LookupResult, states: seq<Text>, walked: WalkResult,
                     reached: set<Ref>)
    requires Completable(World(db, c.sha256, rd), GraphLimits(), true, states)
    requires Exact(World(db, c.sha256, rd), states, walked, reached) && walked.issues == map[] && walked.blobs == map[]
    ensures CapturedClosure(c, rd, db, states, walked.sunk)
  {
    hide IsClosure, Fits, SeedsFit, RootRefs, Reach.Content;
    var w := World(db, c.sha256, rd);
    var found :| CompletableWith(w, GraphLimits(), true, states, found);
    ClosureUnique(w, RootRefs(w, states), found, reached);
    assert Ids(reached) - Goods(w, Ids(reached)) == {};
    NoneLeft(Ids(reached), Goods(w, Ids(reached)));
    assert walked.blobs.Keys + Elements(walked.sunk) == Elements(walked.sunk);
  }

  lemma NoneLeft<T>(a: set<T>, b: set<T>)
    requires b <= a && a - b == {}
    ensures a == b
  {
    forall x | x in a ensures x in b {
      assert x !in a - b;
    }
  }

  lemma FaithfulSunk(w: World, lim: WalkLimits, states: seq<Text>, walked: WalkResult, reached: set<Ref>)
    requires Faithful(w, lim, true, states, walked, reached)
    ensures (forall id :: id in walked.sunk ==> Reach.Content(w, id).Good?)
    ensures |walked.sunk| == |Elements(walked.sunk)| <= lim.maxNodes
    ensures walked.blobs == map[] && |walked.issues| <= lim.maxNodes
  {
    hide Reach.Content, SizeOf, Ids;
    SubsetSize(Elements(walked.sunk), Ids(reached));
    SubsetSize(walked.issues.Keys, Ids(reached));
    assert |walked.issues| == |walked.issues.Keys|;
  }

  lemma CaptureIs(c: Codec, rd: Reader, r: RowReader, db: Text -> LookupResult, header: Header, composer: RawRow,
                  bubbles: seq<RawRow>, m: Manifest, parts: seq<Part>, walked: WalkResult, reached: set<Ref>,
                  states: seq<Text>)
    requires m.composerId == header.composerId && m.header == header && m.bubbleCount == |bubbles|
    requires m.agentKvBlobCount == |walked.sunk|
    requires m.agentKvMissingCount == |walked.issues| && m.continuationComplete == walked.complete
    requires m.parts == Describe(c, parts)
    requires RawOk(composer) && |bubbles| <= MAX_ROWS && forall i :: 0 <= i < |bubbles| ==> RawOk(bubbles[i])
    requires PartsRows(parts, Core) == [StoredRow(composer)] + StoredRows(bubbles)
    requires PartsRows(parts, Kv) == BlobRows(db, walked.sunk)
    requires forall i :: 0 <= i < |parts| ==> PartOk(m.composerId, CHUNK_BYTES, parts[i])
    requires PartsBytes(parts) <= MAX_TOTAL && |parts| <= MAX_PARTS
    requires m.chatCoreHash ==
               c.sha256(JsonString.Utf8(CoreText(header.composerId, header, StoredRow(composer), StoredRows(bubbles))))
    requires AllFound(r.visible(StoredRow(composer)), header.composerId, StoredRows(bubbles))
    requires StatesOf(r, header.composerId, StoredRow(composer), StoredRows(bubbles), |bubbles|) == Some(states)
    requires Faithful(World(db, c.sha256, rd), GraphLimits(), true, states, walked, reached)
    requires walked.complete ==> walked.issues == map[] && CapturedClosure(c, rd, db, states, walked.sunk)
    ensures IsCapture(c, rd, r, db, header, composer, bubbles, m, parts, walked.sunk)
  {
    FaithfulSunk(World(db, c.sha256, rd), GraphLimits(), states, walked, reached);
    hide Faithful, StoredRow, CoreText, PartOk, AllFound, CapturedClosure, RawOk, Reach.Content, BlobRow, StatesOf;
    hide Describe, PartsRows, PartsBytes;
  }
}
