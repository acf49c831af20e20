/**
 * The chat overlay's history: a ring of NUM_CHAT_NOTIFY lines written at
 * chatHistoryIndex mod NUM_CHAT_NOTIFY, of which the newest
 * chatHistorySize are shown, each fading one step per CHAT_FADE_TIME.
 */
module MpChat {
  import opened MpTypes

  /** One ring entry: the text and its remaining fade steps. */
  datatype ChatLine = ChatLine(line: string, fade: int)

  /** The ring as values: slots, total lines ever added, lines still shown. */
  datatype ChatRing = ChatRing(slots: seq<ChatLine>, index: int, size: int)

  ghost predicate RingValid(r: ChatRing) {
    |r.slots| == NUM_CHAT_NOTIFY && 0 <= r.size <= NUM_CHAT_NOTIFY && r.size <= r.index
  }

  /** The slot holding the k-th shown line, oldest first. */
  function SlotOf(r: ChatRing, k: int): (j: int)
    requires RingValid(r) && 0 <= k < r.size
    ensures 0 <= j < NUM_CHAT_NOTIFY
  {
    (r.index - r.size + k) % NUM_CHAT_NOTIFY
  }

  /** The shown lines, oldest first. */
  function History(r: ChatRing): (h: seq<ChatLine>)
    requires RingValid(r)
    ensures |h| == r.size
  {
    seq(r.size, k requires 0 <= k < r.size => r.slots[SlotOf(r, k)])
  }

  /** The newest NUM_CHAT_NOTIFY entries of `h`. */
  function Newest(h: seq<ChatLine>): seq<ChatLine> {
    if |h| > NUM_CHAT_NOTIFY then h[|h| - NUM_CHAT_NOTIFY..] else h
  }

  /** AddChatLine on the ring. */
  function AddLine(r: ChatRing, text: string): ChatRing
    requires RingValid(r)
  {
    ChatRing(r.slots[r.index % NUM_CHAT_NOTIFY := ChatLine(text, CHAT_LINE_FADE)],
             r.index + 1,
             if r.size < NUM_CHAT_NOTIFY then r.size + 1 else r.size)
  }

  /** Distinct positions less than a ring length apart use distinct slots. */
  lemma DistinctSlots(a: int, b: int)
    requires 0 <= a < b < a + NUM_CHAT_NOTIFY
    ensures a % NUM_CHAT_NOTIFY != b % NUM_CHAT_NOTIFY
  {
  }

  /**
   * A new line is appended to the shown history, and only the newest five
   * lines stay shown; the ring stays well formed.
   */
  lemma AddLineHistory(r: ChatRing, text: string)
    requires RingValid(r)
    ensures RingValid(AddLine(r, text))
    ensures History(AddLine(r, text)) == Newest(History(r) + [ChatLine(text, CHAT_LINE_FADE)])
  {
    var r' := AddLine(r, text);
    var h := History(r);
    var want := Newest(h + [ChatLine(text, CHAT_LINE_FADE)]);
    var got := History(r');
    assert |got| == |want|;
    forall k | 0 <= k < |got| ensures got[k] == want[k] {
      var pos := r'.index - r'.size + k;
      if k == r'.size - 1 {
        assert pos == r.index;
      } else {
        var old_k := if r.size < NUM_CHAT_NOTIFY then k else k + 1;
        assert pos == r.index - r.size + old_k;
        DistinctSlots(pos, r.index);
        assert got[k] == h[old_k];
      }
    }
  }

  /** Shown lines fade toward the oldest: fades rise from oldest to newest, all in 0 .. 6. */
  ghost predicate FadesOrdered(h: seq<ChatLine>) {
    && (forall k :: 0 <= k < |h| ==> 0 <= h[k].fade <= CHAT_LINE_FADE)
    && (forall a, b :: 0 <= a < b < |h| ==> h[a].fade <= h[b].fade)
  }

  /** Appending a fresh line keeps the fades ordered. */
  lemma AddLineKeepsOrder(r: ChatRing, text: string)
    requires RingValid(r) && FadesOrdered(History(r))
    ensures FadesOrdered(History(AddLine(r, text)))
  {
    AddLineHistory(r, text);
    var h := History(r) + [ChatLine(text, CHAT_LINE_FADE)];
    assert FadesOrdered(h);
  }

  /** The slot j is one of the shown ones. */
  predicate Live(r: ChatRing, j: int)
    requires RingValid(r)
  {
    (j - (r.index - r.size)) % NUM_CHAT_NOTIFY < r.size
  }

  /** How many of h[..n] have no fade step left. */
  function Expiring(h: seq<ChatLine>, n: nat): nat
    requires n <= |h|
  {
    if n == 0 then 0 else Expiring(h, n - 1) + (if h[n - 1].fade - 1 < 0 then 1 else 0)
  }

  /** One fade step of DrawChat: every shown line loses a step; lines below zero stop being shown. */
  function Tick(r: ChatRing): (t: ChatRing)
    requires RingValid(r)
  {
    ChatRing(seq(NUM_CHAT_NOTIFY, j requires 0 <= j < NUM_CHAT_NOTIFY =>
               if Live(r, j) then r.slots[j].(fade := r.slots[j].fade - 1) else r.slots[j]),
             r.index,
             r.size - Expiring(History(r), r.size))
  }

  lemma {:induction false} ExpiringBound(h: seq<ChatLine>, n: nat)
    requires n <= |h|
    ensures Expiring(h, n) <= n
  {
    if n > 0 {
      ExpiringBound(h, n - 1);
    }
  }

  /** With ordered fades, the expiring lines are exactly the first ones with fade 0. */
  lemma {:induction false} ExpiringPrefix(h: seq<ChatLine>, n: nat)
    requires FadesOrdered(h) && n <= |h|
    ensures Expiring(h, n) <= n
    ensures forall k :: 0 <= k < Expiring(h, n) ==> h[k].fade == 0
    ensures forall k :: Expiring(h, n) <= k < n ==> h[k].fade > 0
  {
    if n > 0 {
      ExpiringPrefix(h, n - 1);
      ExpiringBound(h, n - 1);
    }
  }

  /** The lines of h from the z-th on, each one fade step fainter. */
  function Fainter(h: seq<ChatLine>, z: int): (f: seq<ChatLine>)
    requires 0 <= z <= |h|
    ensures |f| == |h| - z
  {
    seq(|h| - z, k requires 0 <= k < |h| - z => h[z + k].(fade := h[z + k].fade - 1))
  }

  /**
   * DrawChat's removal, which "assumes the removals are always at the
   * beginning", is right while fades are ordered: after a step the shown
   * history is the old one without its faded-out oldest lines, each one step
   * fainter, and the fades stay ordered.
   */
  lemma TickHistory(r: ChatRing)
    requires RingValid(r) && FadesOrdered(History(r))
    ensures RingValid(Tick(r))
    ensures History(Tick(r)) == Fainter(History(r), Expiring(History(r), r.size))
    ensures FadesOrdered(History(Tick(r)))
  {
    var h := History(r);
    var z := Expiring(h, r.size);
    ExpiringPrefix(h, r.size);
    var want := Fainter(h, z);
    var got := History(Tick(r));
    forall k | 0 <= k < r.size - z ensures got[k] == want[k] {
      TickShown(r, k);
    }
    assert got == want;
    FainterOrdered(h, z);
  }

  /** Dropping lines that all fade later than the rest, one step fainter, keeps the fades ordered. */
  lemma FainterOrdered(h: seq<ChatLine>, z: int)
    requires FadesOrdered(h) && 0 <= z <= |h|
    requires forall k :: z <= k < |h| ==> h[k].fade > 0
    ensures FadesOrdered(Fainter(h, z))
  {
    var f := Fainter(h, z);
    forall a, b | 0 <= a < b < |f| ensures f[a].fade <= f[b].fade {
      assert h[z + a].fade <= h[z + b].fade;
    }
    forall k | 0 <= k < |f| ensures 0 <= f[k].fade <= CHAT_LINE_FADE {
      assert h[z + k].fade > 0;
    }
  }

  /** The k-th line shown after a step is the (z+k)-th line shown before, one step fainter. */
  lemma TickShown(r: ChatRing, k: int)
    requires RingValid(r) && FadesOrdered(History(r))
    requires 0 <= k < r.size - Expiring(History(r), r.size)
    ensures RingValid(Tick(r))
    ensures var z := Expiring(History(r), r.size);
      History(Tick(r))[k] == History(r)[z + k].(fade := History(r)[z + k].fade - 1)
  {
    var h := History(r);
    var z := Expiring(h, r.size);
    ExpiringBound(h, r.size);
    var t := Tick(r);
    assert RingValid(t);
    assert SlotOf(t, k) == SlotOf(r, z + k);
    LiveSlot(r, z + k);
  }

  /** The slot of a shown line is live. */
  lemma LiveSlot(r: ChatRing, k: int)
    requires RingValid(r) && 0 <= k < r.size
    ensures Live(r, SlotOf(r, k))
  {
    var base := r.index - r.size;
    var q := (base + k) / NUM_CHAT_NOTIFY;
    var j := (base + k) % NUM_CHAT_NOTIFY;
    assert j - base == NUM_CHAT_NOTIFY * (-q) + k;
    ModUnique(j - base, -q, k);
  }

  /** The remainder by the ring length is the unique one below it. */
  lemma ModUnique(x: int, q: int, k: int)
    requires 0 <= k < NUM_CHAT_NOTIFY && x == NUM_CHAT_NOTIFY * q + k
    ensures x % NUM_CHAT_NOTIFY == k
  {
  }

  /** What DrawChat hands to the chat GUI: up to five texts, and an alpha of min(4, fade) per shown line. */
  datatype ChatRow = ChatRow(text: string, alpha: int)

  function ChatRows(h: seq<ChatLine>): (rows: seq<ChatRow>)
    ensures |rows| == |h|
    ensures forall k :: 0 <= k < |h| ==> rows[k].text == h[k].line && rows[k].alpha <= 4
                                         && (h[k].fade <= 4 ==> rows[k].alpha == h[k].fade)
  {
    seq(|h|, k requires 0 <= k < |h| => ChatRow(h[k].line, if h[k].fade < 4 then h[k].fade else 4))
  }

  /**
   * Within one pass of DrawChat's fade loop over positions base .. base+4,
   * the slot of position i is the only one at distance i - base from base.
   */
  lemma SlotOrder(base: int, i: int, j: int)
    requires base <= i < base + NUM_CHAT_NOTIFY && 0 <= j < NUM_CHAT_NOTIFY
    ensures (j - base) % NUM_CHAT_NOTIFY == i - base <==> j == i % NUM_CHAT_NOTIFY
  {
    if j == i % NUM_CHAT_NOTIFY {
      assert j - base == NUM_CHAT_NOTIFY * (-(i / NUM_CHAT_NOTIFY)) + (i - base);
      ModUnique(j - base, -(i / NUM_CHAT_NOTIFY), i - base);
    }
    if (j - base) % NUM_CHAT_NOTIFY == i - base {
      var q := (j - base) / NUM_CHAT_NOTIFY;
      assert i == NUM_CHAT_NOTIFY * (-q) + j;
      ModUnique(i, -q, j);
    }
  }

  /** The slots after DrawChat's fade loop has visited the first n shown lines. */
  function Faded(r: ChatRing, n: int): (f: seq<ChatLine>)
    requires RingValid(r)
    ensures |f| == NUM_CHAT_NOTIFY
  {
    seq(NUM_CHAT_NOTIFY, j requires 0 <= j < NUM_CHAT_NOTIFY =>
      if (j - (r.index - r.size)) % NUM_CHAT_NOTIFY < n then r.slots[j].(fade := r.slots[j].fade - 1) else r.slots[j])
  }

  /**
   * Visiting the n-th shown line fades only its slot, which still holds
   * that line unfaded; no visit leaves the ring as it was, and visiting
   * every shown line is one Tick.
   */
  lemma FadedStep(r: ChatRing, n: int)
    requires RingValid(r) && 0 <= n < r.size
    ensures var s := SlotOf(r, n);
      && s == (r.index - r.size + n) % NUM_CHAT_NOTIFY
      && Faded(r, n)[s] == History(r)[n]
      && Faded(r, n + 1) == Faded(r, n)[s := History(r)[n].(fade := History(r)[n].fade - 1)]
  {
    var base := r.index - r.size;
    var s := SlotOf(r, n);
    SlotOrder(base, base + n, s);
    assert (s - base) % NUM_CHAT_NOTIFY == n;
    assert Faded(r, n)[s] == r.slots[s] == History(r)[n];
    var want := Faded(r, n)[s := History(r)[n].(fade := History(r)[n].fade - 1)];
    forall j | 0 <= j < NUM_CHAT_NOTIFY ensures Faded(r, n + 1)[j] == want[j] {
      SlotOrder(base, base + n, j);
    }
  }

  lemma FadedEnds(r: ChatRing)
    requires RingValid(r)
    ensures Faded(r, 0) == r.slots
    ensures Faded(r, r.size) == Tick(r).slots
  {
  }
}

