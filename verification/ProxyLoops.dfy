/**
 The proxy as the source writes it: two maps and the turn objects in them, updated in place. Every
 handler is proved to do to the state what the machine of ProxyModel does.
 */
module ProxyLoops {
  import opened Wrappers
  import opened Text
  import opened BuzzContext
  import opened ProxyModel

  /** One prompt turn; the input loop cancels it, the output loop extends its text. */
  class ActiveTurn {
    const route: Option<BuzzRoute>
    const session: SessionRef
    var cancelled: bool
    var text: string

    constructor (m: Message)
      ensures Value() == NewTurn(m)
    {
      route := ParseRoute(m.PromptOf());
      session := if m.SessionOf().Session? then m.SessionOf() else NoSession;
      cancelled := false;
      text := "";
    }

    function Value(): Turn
      reads this
    {
      Turn(cancelled, route, session, text)
    }
  }

  class ProxyLoops {
    const cfg: Config
    var requests: map<string, string>
    var turns: map<string, ActiveTurn>
    var toClient: seq<Sent>
    var toEve: seq<Message>
    var phase: Phase
    var log: seq<Event>
    var due: seq<Due>

    ghost function TurnValues(): map<string, Turn>
      reads this, turns.Values
    {
      map k | k in turns :: turns[k].Value()
    }

    /** The state of the machine that this object is in. */
    ghost function Abs(): Proxy
      reads this, turns.Values
    {
      Proxy(requests, TurnValues(), toClient, toEve, phase, log, due)
    }

    constructor (cfg: Config)
      ensures Abs() == START && this.cfg == cfg
    {
      this.cfg := cfg;
      requests, turns, toClient, toEve, phase, log, due := map[], map[], [], [], Reading, [], [];
    }

    /** Lines 120-127: cancels every turn of a session, in whatever order the map yields them. */
    method CancelTurns(sid: SessionRef)
      modifies turns.Values`cancelled
      ensures forall t :: t in turns.Values ==> t.Value() == CancelTurn(old(t.Value()), sid)
    {
      hide ParseRoute;
      var rest := turns.Values;
      while rest != {}
        invariant rest <= turns.Values
        invariant forall t :: t in rest ==> t.Value() == old(t.Value())
        invariant forall t :: t in turns.Values - rest ==> t.Value() == CancelTurn(old(t.Value()), sid)
        decreases |rest|
      {
        var t :| t in rest;
        if t.session == sid {
          t.cancelled := true;
        }
        rest := rest - {t};
      }
    }

    /** Lines 139-145: appends a chunk of agent text to every turn of a session. */
    method ExtendTurns(sid: SessionRef, chunk: string)
      modifies turns.Values`text
      ensures forall t :: t in turns.Values ==> t.Value() == ExtendTurn(old(t.Value()), sid, chunk)
    {
      hide ParseRoute;
      var rest := turns.Values;
      while rest != {}
        invariant rest <= turns.Values
        invariant forall t :: t in rest ==> t.Value() == old(t.Value())
        invariant forall t :: t in turns.Values - rest ==> t.Value() == ExtendTurn(old(t.Value()), sid, chunk)
        decreases |rest|
      {
        var t :| t in rest;
        if t.session == sid {
          t.text := t.text + chunk;
        }
        rest := rest - {t};
      }
    }

    /** The body of the input loop, lines 86-128. */
    method HandleClient(m: Message)
      modifies this, turns.Values
      ensures fresh(turns.Values - old(turns.Values))
      ensures Abs() == OnClient(cfg, old(Abs()), m)
    {
      hide KeyForId, AnsweredLocally, LocalAnswer, Rewrite, NewTurn, TurnsAfterClient, Patch, PublicationError, Trim;
      ghost var before := Abs();
      log := log + [FromClient(m)];
      if AnsweredLocally(cfg, m) {
        toClient := toClient + [Local(LocalAnswer(cfg, m))];
        assert TurnValues() == before.turns;
        return;
      }
      if m.IsRequest() {
        requests := requests[KeyForId(m.id) := m.action.value];
      }
      assert TurnValues() == before.turns;
      UpdateTurns(m);
      toEve := toEve + [Rewrite(cfg, m)];
      assert TurnValues() == TurnsAfterClient(before.turns, m);
    }

    /** Lines 109-127. */
    method UpdateTurns(m: Message)
      modifies this`turns, turns.Values
      ensures fresh(turns.Values - old(turns.Values))
      ensures TurnValues() == TurnsAfterClient(old(TurnValues()), m)
    {
      hide KeyForId, NewTurn;
      if m.IsPrompt() {
        RegisterPrompt(m);
      } else if m.Calls("session/cancel") && m.SessionOf().Session? {
        assert forall k :: k in turns ==> turns[k] in turns.Values;
        CancelTurns(m.SessionOf());
      }
    }

    /** Lines 109-117. */
    method RegisterPrompt(m: Message)
      requires m.IsPrompt()
      modifies this`turns
      ensures fresh(turns.Values - old(turns.Values))
      ensures TurnValues() == old(TurnValues())[KeyForId(m.id) := NewTurn(m)]
    {
      var turn := new ActiveTurn(m);
      turns := turns[KeyForId(m.id) := turn];
    }

    /** Forgets a turn, if it is there. */
    method DropTurn(k: string)
      modifies this`turns
      ensures turns == old(turns) - {k} && TurnValues() == old(TurnValues()) - {k}
    {
      turns := turns - {k};
    }

    /** The output loop from reading a message to passing it on or starting to publish, lines 138-178. */
    method HandleEve(m: Message)
      requires phase.Reading?
      modifies this, turns.Values
      ensures fresh(turns.Values - old(turns.Values))
      ensures Abs() == OnEve(cfg, old(Abs()), m)
    {
      hide KeyForId, AnsweredLocally, LocalAnswer, Rewrite, NewTurn, Patch, PublicationError, Trim;
      ghost var before := Abs();
      var at := |log|;
      log := log + [FromEve(m)];
      assert TurnValues() == before.turns;
      if ChunkOf(m).Some? {
        ExtendTurns(m.SessionOf(), ChunkOf(m).value);
      }
      ghost var extended := TurnsAfterEve(before.turns, m);
      assert forall k :: k in turns ==> turns[k] in turns.Values;
      assert TurnValues() == extended;
      if !m.IsResponse() {
        toClient := toClient + [Relayed(m, at)];
        assert TurnValues() == extended;
        return;
      }
      HandleAnswer(m, at);
      assert Abs() == OnEve(cfg, before, m);
    }

    /** Lines 152-178. */
    method HandleAnswer(m: Message, at: nat)
      requires phase.Reading? && m.IsResponse()
      modifies this
      ensures turns.Values <= old(turns.Values)
      ensures Abs() == OnAnswer(cfg, old(Abs()), m, at)
    {
      hide KeyForId, AnsweredLocally, LocalAnswer, Rewrite, NewTurn, Patch, PublicationError, Trim;
      ghost var before := Abs();
      var k := KeyForId(m.id);
      var answer := Patch(cfg, Lookup(requests, k), m);
      requests := requests - {k};
      assert TurnValues() == before.turns;
      if k !in turns {
        toClient := toClient + [Relayed(answer, at)];
        assert TurnValues() == before.turns;
        return;
      }
      var turn := turns[k];
      var text := Trim(turn.text);
      if !m.Completed() || turn.cancelled || text == "" {
        DropTurn(k);
        toClient := toClient + [Relayed(answer, at)];
        assert TurnValues() == before.turns - {k};
        return;
      }
      due := due + [Due(at, k, turn.route, text)];
      assert TurnValues() == before.turns;
      if turn.route.None? {
        DropTurn(k);
        toClient := toClient + [Relayed(PublicationError(m.id, NO_ROUTE), at)];
        assert TurnValues() == before.turns - {k};
      } else {
        phase := Publishing(answer, k, turn.route.value, text, at);
        assert TurnValues() == before.turns;
      }
    }

    /** The output loop after the publish sequence, lines 184-227. */
    method HandlePublished(p: Publication)
      requires phase.Publishing?
      modifies this
      ensures turns.Values <= old(turns.Values)
      ensures Abs() == OnPublished(old(Abs()), p)
    {
      hide KeyForId, AnsweredLocally, LocalAnswer, Rewrite, NewTurn, Patch, PublicationError, Trim;
      ghost var before := Abs();
      var message := match p case Passed => phase.answer case Failed(d) => PublicationError(phase.answer.id, d);
      DropTurn(phase.key);
      toClient := toClient + [Relayed(message, phase.at)];
      phase := Reading;
      assert TurnValues() == before.turns - {before.phase.key};
    }
  }
}
