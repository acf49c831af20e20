/**
 * The match state a server snapshot carries (WriteToSnapshot) and how a
 * client reads it back (ReadFromSnapshot): the phase as a byte, both
 * tourney seats as signed shorts, then per client two signed 8-bit frag
 * fields, 7 bits of wins, 10 bits of ping and the ingame bit, each value
 * clamped to what its field can carry.
 */
module MpSnapshot {
  import opened Wrappers
  import opened MpTypes
  import opened BitMsg

  /** Field widths: BitsForInteger(MAXFRAGS - MINFRAGS) signed, BitsForInteger(MAXWINS), BitsForInteger(MAXPING). */
  const FRAG_BITS: int := -8
  const WINS_BITS: int := 7
  const PING_BITS: int := 10
  /** Bits per client record and bits before the first record. */
  const CLIENT_BITS: int := 34
  const HEADER_BITS: int := 40
  const SNAPSHOT_BITS: int := HEADER_BITS + CLIENT_BITS * MAX_CLIENTS

  /** The five values of one client that travel in a snapshot. */
  datatype ClientFields = ClientFields(fragCount: int, teamFragCount: int, wins: int, ping: int, ingame: bool)

  /** What a snapshot carries: the phase byte, the two seats, one record per client. */
  datatype Snapshot = Snapshot(gameState: int, seats: Seats, clients: seq<ClientFields>)

  /** The values WriteToSnapshot sends for one client, after clamping. */
  function Clamped(ps: PlayerState): (f: ClientFields)
    ensures MP_PLAYER_MINFRAGS <= f.fragCount <= MP_PLAYER_MAXFRAGS
    ensures MP_PLAYER_MINFRAGS <= f.teamFragCount <= MP_PLAYER_MAXFRAGS
    ensures 0 <= f.wins <= MP_PLAYER_MAXWINS && 0 <= f.ping <= MP_PLAYER_MAXPING
    ensures f.ingame == ps.ingame
    ensures MP_PLAYER_MINFRAGS <= ps.fragCount <= MP_PLAYER_MAXFRAGS ==> f.fragCount == ps.fragCount
    ensures MP_PLAYER_MINFRAGS <= ps.teamFragCount <= MP_PLAYER_MAXFRAGS ==> f.teamFragCount == ps.teamFragCount
    ensures 0 <= ps.wins <= MP_PLAYER_MAXWINS ==> f.wins == ps.wins
    ensures 0 <= ps.ping <= MP_PLAYER_MAXPING ==> f.ping == ps.ping
  {
    ClientFields(
      ClampInt(MP_PLAYER_MINFRAGS, MP_PLAYER_MAXFRAGS, ps.fragCount),
      ClampInt(MP_PLAYER_MINFRAGS, MP_PLAYER_MAXFRAGS, ps.teamFragCount),
      ClampInt(0, MP_PLAYER_MAXWINS, ps.wins),
      ClampInt(0, MP_PLAYER_MAXPING, ps.ping),
      ps.ingame)
  }

  /** The bits of one client record, in the order the fields are written. */
  function EncodeClient(ps: PlayerState): (b: seq<bool>)
    ensures |b| == CLIENT_BITS
  {
    var f := Clamped(ps);
    WriteBits(f.fragCount, FRAG_BITS) + WriteBits(f.teamFragCount, FRAG_BITS)
    + WriteBits(f.wins, WINS_BITS) + WriteBits(f.ping, PING_BITS)
    + WriteBits(if f.ingame then 1 else 0, 1)
  }

  /** The client records of `ps`, client 0 first. */
  function EncodeClients(ps: seq<PlayerState>): (b: seq<bool>)
    ensures |b| == CLIENT_BITS * |ps|
  {
    if |ps| == 0 then [] else EncodeClients(ps[..|ps| - 1]) + EncodeClient(ps[|ps| - 1])
  }

  /** The whole snapshot message. */
  function EncodeSnapshot(gameState: GameState, seats: Seats, ps: seq<PlayerState>): (b: seq<bool>)
    ensures |b| == HEADER_BITS + CLIENT_BITS * |ps|
  {
    WriteBits(GameStateIndex(gameState), 8) + WriteBits(seats[0], -16) + WriteBits(seats[1], -16)
    + EncodeClients(ps)
  }

  /** The record read back from the 34 bits of one client. */
  function FieldsOf(b: seq<bool>): ClientFields
    requires |b| == CLIENT_BITS
  {
    ClientFields(
      ValueOf(b[0..8], FRAG_BITS), ValueOf(b[8..16], FRAG_BITS),
      ValueOf(b[16..23], WINS_BITS), ValueOf(b[23..33], PING_BITS),
      ValueOf(b[33..34], 1) != 0)
  }

  /** The bits of client `i`'s record in a message. */
  function ClientSlice(msg: seq<bool>, i: int): (b: seq<bool>)
    requires 0 <= i < MAX_CLIENTS && |msg| >= SNAPSHOT_BITS
    ensures |b| == CLIENT_BITS
  {
    msg[HEADER_BITS + CLIENT_BITS * i .. HEADER_BITS + CLIENT_BITS * (i + 1)]
  }

  /** What ReadFromSnapshot takes from a message; None when the message is too short. */
  function DecodeSnapshot(msg: seq<bool>): (r: Option<Snapshot>)
    ensures r.Some? <==> |msg| >= SNAPSHOT_BITS
    ensures r.Some? ==> |r.value.clients| == MAX_CLIENTS && 0 <= r.value.gameState < 256
  {
    if |msg| < SNAPSHOT_BITS then None
    else
      var seats: Seats := [ValueOf(msg[8..24], -16), ValueOf(msg[24..40], -16)];
      Some(Snapshot(ValueOf(msg[0..8], 8), seats,
                    seq(MAX_CLIENTS, i requires 0 <= i < MAX_CLIENTS => FieldsOf(ClientSlice(msg, i)))))
  }

  /** Client `i`'s record sits at bits 34 i .. 34 i + 33 of the encoded records. */
  lemma {:induction false} EncodeClientsSlice(ps: seq<PlayerState>, i: int)
    requires 0 <= i < |ps|
    ensures EncodeClients(ps)[CLIENT_BITS * i .. CLIENT_BITS * (i + 1)] == EncodeClient(ps[i])
  {
    var n := |ps| - 1;
    var front, last := EncodeClients(ps[..n]), EncodeClient(ps[n]);
    assert EncodeClients(ps) == front + last;
    if i < n {
      assert ps[..n][i] == ps[i];
      EncodeClientsSlice(ps[..n], i);
      assert |front| == CLIENT_BITS * n && CLIENT_BITS * (i + 1) <= CLIENT_BITS * n;
      SliceOfFront(front, last, CLIENT_BITS * i, CLIENT_BITS * (i + 1));
    } else {
      assert |front| == CLIENT_BITS * i && CLIENT_BITS * (i + 1) == |front| + |last|;
      assert (front + last)[|front|..] == last;
    }
  }

  /** A field found at bits lo .. hi-1 of `b` reads back as the value written there. */
  lemma FieldAt(b: seq<bool>, lo: nat, hi: nat, value: int, numBits: int)
    requires ValidWidth(numBits) && Fits(value, numBits)
    requires lo <= hi <= |b| && hi - lo == Width(numBits)
    requires b[lo..hi] == WriteBits(value, numBits)
    ensures ValueOf(b[lo..hi], numBits) == value
  {
    WriteReadBits(value, numBits);
  }

  /** The five fields sit at bit offsets 0, 8, 16, 23 and 33 of a client record. */
  lemma EncodeClientLayout(ps: PlayerState)
    ensures var b, f := EncodeClient(ps), Clamped(ps);
      && b[0..8] == WriteBits(f.fragCount, FRAG_BITS)
      && b[8..16] == WriteBits(f.teamFragCount, FRAG_BITS)
      && b[16..23] == WriteBits(f.wins, WINS_BITS)
      && b[23..33] == WriteBits(f.ping, PING_BITS)
      && b[33..34] == WriteBits(if f.ingame then 1 else 0, 1)
  {
    var f := Clamped(ps);
    var a0 := WriteBits(f.fragCount, FRAG_BITS);
    var a1 := WriteBits(f.teamFragCount, FRAG_BITS);
    var a2 := WriteBits(f.wins, WINS_BITS);
    var a3 := WriteBits(f.ping, PING_BITS);
    var a4 := WriteBits(if f.ingame then 1 else 0, 1);
    SliceOfConcat5(a0, a1, a2, a3, a4);
  }

  /** One clamped record reads back as the clamped values. */
  lemma FieldsOfEncode(ps: PlayerState)
    ensures FieldsOf(EncodeClient(ps)) == Clamped(ps)
  {
    var f := Clamped(ps);
    var b := EncodeClient(ps);
    EncodeClientLayout(ps);
    Pow2Widths();
    FieldAt(b, 0, 8, f.fragCount, FRAG_BITS);
    FieldAt(b, 8, 16, f.teamFragCount, FRAG_BITS);
    FieldAt(b, 16, 23, f.wins, WINS_BITS);
    FieldAt(b, 23, 33, f.ping, PING_BITS);
    FieldAt(b, 33, 34, if f.ingame then 1 else 0, 1);
  }

  /** Seats of any real client fit a signed short. */
  predicate SeatsFit(seats: Seats) {
    -32768 <= seats[0] < 32768 && -32768 <= seats[1] < 32768
  }

  /**
   * Each write has its matching read: decoding a written snapshot gives back
   * the phase, both seats and every client's clamped values.
   */
  lemma SnapshotRoundTrip(gameState: GameState, seats: Seats, ps: seq<PlayerState>)
    requires |ps| == MAX_CLIENTS && SeatsFit(seats)
    ensures DecodeSnapshot(EncodeSnapshot(gameState, seats, ps))
         == Some(Snapshot(GameStateIndex(gameState), seats,
                          seq(MAX_CLIENTS, i requires 0 <= i < MAX_CLIENTS => Clamped(ps[i]))))
  {
    var msg := EncodeSnapshot(gameState, seats, ps);
    EncodeSnapshotLayout(gameState, seats, ps);
    Pow2Widths();
    FieldAt(msg, 0, 8, GameStateIndex(gameState), 8);
    FieldAt(msg, 8, 24, seats[0], -16);
    FieldAt(msg, 24, 40, seats[1], -16);
    var d := DecodeSnapshot(msg).value;
    assert d.seats == seats;
    var want := seq(MAX_CLIENTS, i requires 0 <= i < MAX_CLIENTS => Clamped(ps[i]));
    assert d.clients == want by {
      forall i | 0 <= i < MAX_CLIENTS ensures d.clients[i] == want[i] {
        ClientRoundTrip(msg, ps, i);
      }
    }
  }

  /** Client i's record of an encoded snapshot reads back as its clamped values. */
  lemma ClientRoundTrip(msg: seq<bool>, ps: seq<PlayerState>, i: int)
    requires |ps| == MAX_CLIENTS && 0 <= i < MAX_CLIENTS && |msg| >= SNAPSHOT_BITS
    requires ClientSlice(msg, i) == EncodeClients(ps)[CLIENT_BITS * i .. CLIENT_BITS * (i + 1)]
    ensures FieldsOf(ClientSlice(msg, i)) == Clamped(ps[i])
  {
    EncodeClientsSlice(ps, i);
    FieldsOfEncode(ps[i]);
  }

  /** The header fields sit at bits 0, 8 and 24; client i's record follows at 40 + 34 i. */
  lemma EncodeSnapshotLayout(gameState: GameState, seats: Seats, ps: seq<PlayerState>)
    requires |ps| == MAX_CLIENTS
    ensures var msg := EncodeSnapshot(gameState, seats, ps);
      && msg[0..8] == WriteBits(GameStateIndex(gameState), 8)
      && msg[8..24] == WriteBits(seats[0], -16)
      && msg[24..40] == WriteBits(seats[1], -16)
      && forall i :: 0 <= i < MAX_CLIENTS ==>
           ClientSlice(msg, i) == EncodeClients(ps)[CLIENT_BITS * i .. CLIENT_BITS * (i + 1)]
  {
    var msg := EncodeSnapshot(gameState, seats, ps);
    var h0 := WriteBits(GameStateIndex(gameState), 8);
    var h1 := WriteBits(seats[0], -16);
    var h2 := WriteBits(seats[1], -16);
    var body := EncodeClients(ps);
    assert msg == h0 + h1 + h2 + body;
    SliceOfConcat4(h0, h1, h2, body);
    SlicesOfSuffix(msg, HEADER_BITS, body);
  }

  /** ReadFromSnapshot on one score table entry: the five carried values are replaced, the rest kept. */
  function Applied(ps: PlayerState, f: ClientFields): PlayerState {
    ps.(fragCount := f.fragCount, teamFragCount := f.teamFragCount, wins := f.wins, ping := f.ping, ingame := f.ingame)
  }

  /** An entry whose values all fit their fields, so that nothing is clamped. */
  predicate Sendable(ps: PlayerState) {
    && MP_PLAYER_MINFRAGS <= ps.fragCount <= MP_PLAYER_MAXFRAGS
    && MP_PLAYER_MINFRAGS <= ps.teamFragCount <= MP_PLAYER_MAXFRAGS
    && 0 <= ps.wins <= MP_PLAYER_MAXWINS && 0 <= ps.ping <= MP_PLAYER_MAXPING
  }

  /**
   * A client that reads the server's snapshot ends in the server's phase,
   * with the server's seats, and with the server's five values in every
   * entry whose values fit their fields; the client's other values stay.
   */
  lemma SnapshotSync(gameState: GameState, seats: Seats, ps: seq<PlayerState>, qs: seq<PlayerState>)
    requires |ps| == MAX_CLIENTS && |qs| == MAX_CLIENTS && SeatsFit(seats)
    ensures var d := DecodeSnapshot(EncodeSnapshot(gameState, seats, ps));
      && d.Some? && GameStateOf(d.value.gameState) == Some(gameState) && d.value.seats == seats
      && forall i :: 0 <= i < MAX_CLIENTS && Sendable(ps[i]) ==>
           Applied(qs[i], d.value.clients[i])
           == qs[i].(fragCount := ps[i].fragCount, teamFragCount := ps[i].teamFragCount,
                     wins := ps[i].wins, ping := ps[i].ping, ingame := ps[i].ingame)
  {
    SnapshotRoundTrip(gameState, seats, ps);
    GameStateIndexRoundTrip(gameState);
  }

  /** The records of the first i + 1 clients are those of the first i, then client i's. */
  lemma EncodeClientsStep(ps: seq<PlayerState>, i: int)
    requires 0 <= i < |ps|
    ensures EncodeClients(ps[..i + 1]) == EncodeClients(ps[..i]) + EncodeClient(ps[i])
  {
    assert ps[..i + 1][..i] == ps[..i];
  }
}

