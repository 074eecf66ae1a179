/**
 * The callbacks of the raw and the WebSocket client as event machines, and how often the
 * user hears of the end of a connection.
 */
module Disconnect {
  datatype Client = RawClient | WsClient

  /** What libwebsockets reports. `lost`: a text was written, and not all of it went out. */
  datatype Event = Error | Connected | Rx | Writeable(lost: bool) | Close | Destroy

  /** What the user's callback object is told. */
  datatype Note = OnError | OnConnected | OnData | OnDisconnected

  /** The fields of a request the callbacks use, and what the user was told so far. */
  datatype Conn = Conn(wsi: bool, shutdown: bool, invoked: bool, notes: seq<Note>)

  /** `raw_socket_callback` and, behind its test of `shutdown`, `ws_callback`. */
  function React(k: Client, c: Conn, e: Event): Conn {
    if k == WsClient && c.shutdown then c.(wsi := false)
    else
      match e
      case Error => c.(wsi := false, notes := c.notes + [OnError])
      case Connected => c.(invoked := false, notes := c.notes + [OnConnected])
      case Rx => c.(notes := c.notes + [OnData])
      case Writeable(lost) => if lost then c.(wsi := false) else c
      case Close => c.(wsi := false, invoked := true, notes := c.notes + [OnDisconnected])
      case Destroy =>
        c.(wsi := false, invoked := true, notes := c.notes + if c.invoked then [] else [OnDisconnected])
  }

  /** After the shutdown a WebSocket request only drops its `wsi`; before, the clients agree. */
  lemma ShutdownDecides(c: Conn, e: Event)
    ensures React(WsClient, c, e) == if c.shutdown then c.(wsi := false) else React(RawClient, c, e)
  {
  }

  /** An event, or the client's `stop` (or its next `connect`) raising `shutdown`. */
  datatype Step = On(e: Event) | Shut

  function Take(k: Client, c: Conn, step: Step): Conn {
    match step
    case On(e) => React(k, c, e)
    case Shut => c.(shutdown := true)
  }

  function Exec(k: Client, c: Conn, steps: seq<Step>): Conn
    decreases |steps|
  {
    if steps == [] then c else Exec(k, Take(k, c, steps[0]), steps[1..])
  }

  /** The events that get through to the user: all of them, or those before the shutdown. */
  function Heard(k: Client, shutdown: bool, steps: seq<Step>): seq<Event>
    decreases |steps|
  {
    if steps == [] then []
    else
      match steps[0]
      case Shut => Heard(k, true, steps[1..])
      case On(e) => (if k == WsClient && shutdown then [] else [e]) + Heard(k, shutdown, steps[1..])
  }

  // ---------------------------------------------------------------- event order

  /** How far a connection is. */
  datatype Phase = New | Open | Closed | Gone

  /** Error or established first, if at all; then traffic; perhaps a close; then destroyed. */
  predicate Follows(p: Phase, e: Event) {
    match p
    case New => true
    case Open => e != Error && e != Connected
    case Closed => e == Destroy
    case Gone => false
  }

  function PhaseAfter(e: Event): Phase {
    match e
    case Close => Closed
    case Destroy => Gone
    case _ => Open
  }

  predicate Orderly(p: Phase, es: seq<Event>)
    decreases |es|
  {
    es == [] || (Follows(p, es[0]) && Orderly(PhaseAfter(es[0]), es[1..]))
  }

  /** The events among the steps, heard or not. */
  function Events(steps: seq<Step>): seq<Event>
    decreases |steps|
  {
    if steps == [] then [] else (if steps[0].On? then [steps[0].e] else []) + Events(steps[1..])
  }

  /** What is heard is where the events begin. */
  lemma {:induction false} HeardIsPrefix(k: Client, shutdown: bool, steps: seq<Step>)
    ensures Heard(k, shutdown, steps) <= Events(steps)
    ensures k == WsClient && shutdown ==> Heard(k, shutdown, steps) == []
    ensures k == RawClient ==> Heard(k, shutdown, steps) == Events(steps)
    decreases |steps|
  {
    if steps != [] {
      HeardIsPrefix(k, shutdown || steps[0] == Shut, steps[1..]);
    }
  }

  lemma {:induction false} OrderlyPrefix(p: Phase, es: seq<Event>, whole: seq<Event>)
    requires es <= whole && Orderly(p, whole)
    ensures Orderly(p, es)
    decreases |es|
  {
    if es != [] {
      assert es[1..] <= whole[1..];
      OrderlyPrefix(PhaseAfter(es[0]), es[1..], whole[1..]);
    }
  }

  // ---------------------------------------------------------------- counting

  function Disconnects(notes: seq<Note>): nat {
    multiset(notes)[OnDisconnected]
  }

  /**
   * The notices of disconnection owed for events in order: one for a close; one for a
   * destruction without close, unless the flag was up and no connection took it down.
   */
  function Due(p: Phase, invoked: bool, es: seq<Event>): nat {
    if p == Closed || p == Gone then 0
    else if Close in es then 1
    else if Destroy in es && (!invoked || Connected in es) then 1
    else 0
  }

  lemma DueStep(p: Phase, invoked: bool, es: seq<Event>)
    requires es != [] && Orderly(p, es) && (p == Closed || p == Gone ==> invoked)
    ensures var e := es[0];
      var now := if e == Close || (e == Destroy && !invoked) then 1 else 0;
      var after := if e == Connected then false else if e == Close || e == Destroy then true else invoked;
      Due(p, invoked, es) == now + Due(PhaseAfter(e), after, es[1..])
  {
    var e, rest := es[0], es[1..];
    assert es == [e] + rest;
    assert Orderly(PhaseAfter(e), rest);
    if rest != [] {
      assert Follows(PhaseAfter(e), rest[0]);
    }
    OpenHearsNoConnect(PhaseAfter(e), rest);
  }

  lemma {:induction false} OpenHearsNoConnect(p: Phase, es: seq<Event>)
    requires Orderly(p, es) && p != New
    ensures Connected !in es && Error !in es && (p == Closed || p == Gone ==> Close !in es)
    ensures p == Gone ==> es == []
    decreases |es|
  {
    if es != [] {
      OpenHearsNoConnect(PhaseAfter(es[0]), es[1..]);
      assert es == [es[0]] + es[1..];
    }
  }

  /** What one event that gets through does to the count and the flag. */
  lemma Reacts(k: Client, c: Conn, e: Event)
    requires !(k == WsClient && c.shutdown)
    ensures var d := React(k, c, e);
      && Disconnects(d.notes) == Disconnects(c.notes) + (if e == Close || (e == Destroy && !c.invoked) then 1 else 0)
      && d.invoked == (if e == Connected then false else if e == Close || e == Destroy then true else c.invoked)
      && d.shutdown == c.shutdown
  {
  }

  lemma DeafReaction(c: Conn, e: Event)
    requires c.shutdown
    ensures React(WsClient, c, e) == c.(wsi := false)
  {
  }

  lemma {:induction false} NoticesOf(k: Client, c: Conn, steps: seq<Step>, p: Phase)
    requires Orderly(p, Heard(k, c.shutdown, steps)) && (p == Closed || p == Gone ==> c.invoked)
    ensures Disconnects(Exec(k, c, steps).notes) ==
      Disconnects(c.notes) + Due(p, c.invoked, Heard(k, c.shutdown, steps))
    decreases |steps|
  {
    hide Disconnects;
    hide React;
    if steps != [] {
      hide Due;
      var d, heard := Take(k, c, steps[0]), Heard(k, c.shutdown, steps);
      if steps[0].Shut? {
        NoticesOf(k, d, steps[1..], p);
      } else if k == WsClient && c.shutdown {
        DeafReaction(c, steps[0].e);
        assert heard == Heard(k, c.shutdown, steps[1..]);
        NoticesOf(k, d, steps[1..], p);
      } else {
        Reacts(k, c, steps[0].e);
        assert heard[0] == steps[0].e && heard[1..] == Heard(k, c.shutdown, steps[1..]);
        DueStep(p, c.invoked, heard);
        NoticesOf(k, d, steps[1..], PhaseAfter(steps[0].e));
      }
    }
  }

  /**
   * The raw client hears of the end at most once per connection, and over a whole life
   * exactly once, unless the flag was left up by an earlier use of the request and the
   * connection was never made nor closed. `stop` changes nothing about that.
   */
  lemma RawDisconnects(c: Conn, steps: seq<Step>)
    requires Orderly(New, Events(steps))
    ensures
      var es := Events(steps);
      var told := Disconnects(Exec(RawClient, c, steps).notes) - Disconnects(c.notes);
      && 0 <= told <= 1
      && (Destroy in es ==> (told == 1 <==> !c.invoked || Connected in es || Close in es))
  {
    HeardIsPrefix(RawClient, c.shutdown, steps);
    NoticesOf(RawClient, c, steps, New);
  }

  /**
   * The WebSocket client hears of the end at most once, and exactly once if and only if
   * the close (or, if there is none, the destruction) came before the shutdown and the
   * flag was down, or taken down by the connection, or there was a close.
   */
  lemma WsDisconnects(c: Conn, steps: seq<Step>)
    requires Orderly(New, Events(steps))
    ensures
      var es := Heard(WsClient, c.shutdown, steps);
      var told := Disconnects(Exec(WsClient, c, steps).notes) - Disconnects(c.notes);
      && 0 <= told <= 1
      && (told == 1 <==> Close in es || (Destroy in es && (!c.invoked || Connected in es)))
  {
    HeardIsPrefix(WsClient, c.shutdown, steps);
    OrderlyPrefix(New, Heard(WsClient, c.shutdown, steps), Events(steps));
    NoticesOf(WsClient, c, steps, New);
  }

  /** Without a shutdown a new WebSocket request hears of the end of its life exactly once. */
  lemma WsDisconnectsOnce(c: Conn, steps: seq<Step>)
    requires Orderly(New, Events(steps)) && Destroy in Events(steps)
    requires !c.shutdown && !c.invoked && Shut !in steps
    ensures Disconnects(Exec(WsClient, c, steps).notes) == Disconnects(c.notes) + 1
  {
    AllHeard(steps);
    WsDisconnects(c, steps);
  }

  lemma {:induction false} AllHeard(steps: seq<Step>)
    requires Shut !in steps
    ensures Heard(WsClient, false, steps) == Events(steps)
    decreases |steps|
  {
    if steps != [] {
      assert steps[0] != Shut;
      AllHeard(steps[1..]);
    }
  }

  // ---------------------------------------------------------------- other notices

  /** What the user is told of an event at once, besides a disconnection. */
  function Tidings(es: seq<Event>): seq<Note>
    decreases |es|
  {
    if es == [] then []
    else
      (match es[0] case Error => [OnError] case Connected => [OnConnected] case Rx => [OnData] case _ => [])
      + Tidings(es[1..])
  }

  /** The notices without those of disconnection. */
  function Others(notes: seq<Note>): seq<Note>
    decreases |notes|
  {
    if notes == [] then []
    else (if notes[0] == OnDisconnected then [] else [notes[0]]) + Others(notes[1..])
  }

  lemma {:induction false} OthersAppend(a: seq<Note>, b: seq<Note>)
    ensures Others(a + b) == Others(a) + Others(b)
    decreases |a|
  {
    if a == [] {
      assert a + b == b;
    } else {
      assert (a + b)[1..] == a[1..] + b;
      OthersAppend(a[1..], b);
    }
  }

  lemma TidingsOfOne(k: Client, c: Conn, e: Event)
    requires !(k == WsClient && c.shutdown)
    ensures Others(React(k, c, e).notes) == Others(c.notes) + Tidings([e]) && React(k, c, e).shutdown == c.shutdown
  {
    var d := React(k, c, e);
    var added := d.notes[|c.notes|..];
    assert d.notes == c.notes + added && |added| <= 1;
    OthersAppend(c.notes, added);
    assert |added| == 1 ==> added == [added[0]];
    assert [e][1..] == [];
  }

  lemma TidingsFirst(es: seq<Event>)
    requires es != []
    ensures Tidings(es) == Tidings([es[0]]) + Tidings(es[1..])
  {
    assert [es[0]][1..] == [];
  }

  /** An event that gets through, told at once, before the rest. */
  lemma HeardNotice(k: Client, c: Conn, e: Event, rest: seq<Event>)
    requires !(k == WsClient && c.shutdown)
    ensures Others(React(k, c, e).notes) + Tidings(rest) == Others(c.notes) + Tidings([e] + rest)
  {
    hide React;
    hide Others;
    TidingsOfOne(k, c, e);
    TidingsFirst([e] + rest);
    assert ([e] + rest)[1..] == rest;
    hide Tidings;
  }

  lemma FirstNotice(k: Client, c: Conn, steps: seq<Step>)
    requires steps != []
    ensures var d := Take(k, c, steps[0]);
      Others(d.notes) + Tidings(Heard(k, d.shutdown, steps[1..])) ==
      Others(c.notes) + Tidings(Heard(k, c.shutdown, steps))
  {
    hide React;
    hide Others;
    hide Tidings;
    match steps[0]
    case Shut =>
    case On(e) =>
      if k == WsClient && c.shutdown {
        DeafReaction(c, e);
        assert [] + Heard(k, true, steps[1..]) == Heard(k, true, steps[1..]);
      } else {
        TidingsOfOne(k, c, e);
        HeardNotice(k, c, e, Heard(k, c.shutdown, steps[1..]));
      }
  }

  /**
   * In both clients the user is told, in order, of each error, of each connection and of
   * each piece of data that gets through, and of nothing else but a disconnection.
   */
  lemma {:induction false} NoticesInOrder(k: Client, c: Conn, steps: seq<Step>)
    ensures Others(Exec(k, c, steps).notes) == Others(c.notes) + Tidings(Heard(k, c.shutdown, steps))
    decreases |steps|
  {
    hide Take;
    hide Others;
    if steps != [] {
      FirstNotice(k, c, steps);
      hide Heard;
      hide Tidings;
      NoticesInOrder(k, Take(k, c, steps[0]), steps[1..]);
    }
  }

  lemma {:induction false} CountOthers(notes: seq<Note>)
    ensures multiset(Others(notes))[OnError] == multiset(notes)[OnError]
    ensures multiset(Others(notes))[OnConnected] == multiset(notes)[OnConnected]
    ensures multiset(Others(notes))[OnData] == multiset(notes)[OnData]
    decreases |notes|
  {
    if notes != [] {
      var n := notes[0];
      CountOthers(notes[1..]);
      assert notes == [n] + notes[1..];
      assert Others(notes) == (if n == OnDisconnected then [] else [n]) + Others(notes[1..]);
    }
  }

  lemma CountOneTiding(e: Event)
    ensures var told := multiset(Tidings([e]));
      && told[OnError] == (if e == Error then 1 else 0)
      && told[OnConnected] == (if e == Connected then 1 else 0)
      && told[OnData] == (if e == Rx then 1 else 0)
  {
    assert [e][1..] == [];
  }

  lemma {:induction false} CountTidings(es: seq<Event>)
    ensures multiset(Tidings(es))[OnError] == multiset(es)[Error]
    ensures multiset(Tidings(es))[OnConnected] == multiset(es)[Connected]
    ensures multiset(Tidings(es))[OnData] == multiset(es)[Rx]
    decreases |es|
  {
    if es != [] {
      TidingsFirst(es);
      CountOneTiding(es[0]);
      hide Tidings;
      CountTidings(es[1..]);
      assert es == [es[0]] + es[1..];
    }
  }

  /** Counted: one `on_error` for each error, one `on_connected` for each connection, one `on_data` for each receipt. */
  lemma NoticesCounted(k: Client, c: Conn, steps: seq<Step>)
    ensures
      var told, before := multiset(Exec(k, c, steps).notes), multiset(c.notes);
      var es := multiset(Heard(k, c.shutdown, steps));
      && told[OnError] == before[OnError] + es[Error]
      && told[OnConnected] == before[OnConnected] + es[Connected]
      && told[OnData] == before[OnData] + es[Rx]
  {
    NoticesInOrder(k, c, steps);
    CountOthers(Exec(k, c, steps).notes);
    CountOthers(c.notes);
    CountTidings(Heard(k, c.shutdown, steps));
  }

  lemma {:induction false} ExecAppend(k: Client, c: Conn, steps: seq<Step>, step: Step)
    ensures Exec(k, c, steps + [step]) == Take(k, Exec(k, c, steps), step)
    decreases |steps|
  {
    hide React;
    if steps == [] {
      assert ([] + [step])[1..] == [];
    } else {
      assert (steps + [step])[1..] == steps[1..] + [step];
      ExecAppend(k, Take(k, c, steps[0]), steps[1..], step);
    }
  }

  lemma {:induction false} ShutdownOf(k: Client, c: Conn, steps: seq<Step>)
    ensures Exec(k, c, steps).shutdown <==> c.shutdown || Shut in steps
    decreases |steps|
  {
    if steps != [] {
      ShutdownOf(k, Take(k, c, steps[0]), steps[1..]);
    }
  }

  /**
   * An error, a lost write, a close and a destruction leave `wsi` null; a connection, data
   * and a write that went out leave it as it was, unless a WebSocket client has shut down.
   */
  lemma WsiAfter(k: Client, c: Conn, steps: seq<Step>, e: Event)
    ensures
      var d, t := Exec(k, c, steps), Exec(k, c, steps + [On(e)]);
      var deaf := k == WsClient && (c.shutdown || Shut in steps);
      && (e in {Error, Writeable(true), Close, Destroy} || deaf ==> !t.wsi)
      && (e in {Connected, Rx, Writeable(false)} && !deaf ==> t.wsi == d.wsi)
  {
    ExecAppend(k, c, steps, On(e));
    ShutdownOf(k, c, steps);
  }

  // ---------------------------------------------------------------- last word

  /** At most the last thing told is the notice of disconnection. */
  predicate LastWord(notes: seq<Note>) {
    forall i :: 0 <= i < |notes| - 1 ==> notes[i] != OnDisconnected
  }

  /** Whether a connection at `p` is finished with the user. */
  predicate Quiet(k: Client, c: Conn) {
    c.invoked || (k == WsClient && c.shutdown)
  }

  lemma QuietStep(k: Client, c: Conn, e: Event, p: Phase)
    requires Follows(p, e) && LastWord(c.notes)
    requires if p == Closed || p == Gone then Quiet(k, c) else OnDisconnected !in c.notes
    ensures var d := React(k, c, e);
      && LastWord(d.notes)
      && (if e == Close || e == Destroy then Quiet(k, d) && !d.wsi else OnDisconnected !in d.notes)
  {
  }

  /** Nothing is told after the notice of disconnection, and the life ends with `wsi` null. */
  lemma {:induction false} DisconnectedIsLast(k: Client, c: Conn, steps: seq<Step>, p: Phase)
    requires Orderly(p, Events(steps)) && LastWord(c.notes)
    requires if p == Closed || p == Gone then Quiet(k, c) else OnDisconnected !in c.notes
    ensures LastWord(Exec(k, c, steps).notes)
    ensures Destroy in Events(steps) ==> !Exec(k, c, steps).wsi
    decreases |steps|
  {
    hide React;
    hide LastWord;
    if steps != [] {
      var d, rest := Take(k, c, steps[0]), steps[1..];
      if steps[0].Shut? {
        assert Events(steps) == Events(rest);
        DisconnectedIsLast(k, d, rest, p);
      } else {
        var e := steps[0].e;
        assert Events(steps) == [e] + Events(rest);
        QuietStep(k, c, e, p);
        if e == Destroy {
          WsiStaysNull(k, d, rest);
        }
        DisconnectedIsLast(k, d, rest, PhaseAfter(e));
      }
    }
  }

  /** No callback sets `wsi`; only connecting does. */
  lemma {:induction false} WsiStaysNull(k: Client, c: Conn, steps: seq<Step>)
    requires !c.wsi
    ensures !Exec(k, c, steps).wsi
    decreases |steps|
  {
    if steps != [] {
      WsiStaysNull(k, Take(k, c, steps[0]), steps[1..]);
    }
  }

  // ---------------------------------------------------------------- used again

  /** The life of a connection leaves the flag up. */
  lemma {:induction false} FlagUpAfterLife(c: Conn, steps: seq<Step>, p: Phase)
    requires Orderly(p, Events(steps)) && (Destroy in Events(steps) || (p == Gone && c.invoked))
    ensures Exec(RawClient, c, steps).invoked
    decreases |steps|
  {
    if steps != [] {
      var d, rest := Take(RawClient, c, steps[0]), steps[1..];
      if steps[0].Shut? {
        assert Events(steps) == Events(rest);
        FlagUpAfterLife(d, rest, p);
      } else {
        assert Events(steps) == [steps[0].e] + Events(rest);
        FlagUpAfterLife(d, rest, PhaseAfter(steps[0].e));
      }
    }
  }

  /**
   * `connect` of the raw client does not take the flag down. So when a request is used
   * again after a whole life, a second life that is destroyed without ever connecting or
   * closing ends without a notice, and any other one with exactly one.
   */
  lemma RawReuse(c: Conn, first: seq<Step>, second: seq<Step>)
    requires Orderly(New, Events(first)) && Destroy in Events(first)
    requires Orderly(New, Events(second)) && Destroy in Events(second)
    ensures
      var d := Exec(RawClient, c, first);
      var told := Disconnects(Exec(RawClient, d, second).notes) - Disconnects(d.notes);
      told == if Connected in Events(second) || Close in Events(second) then 1 else 0
  {
    FlagUpAfterLife(c, first, New);
    RawDisconnects(Exec(RawClient, c, first), second);
  }
}
