// What the delivered column means over whole runs: exactly which events set it, and that a
// message it is set for is never handed over a second time.

module DeliveryLaws {
  import opened Options
  import opened MessageLog
  import opened Delivery

  /** The event flags this id: a chat handler stores a new message for a receiver it has found
      online, or a login that has handed over all it pulled marks what it handed over. */
  ghost predicate Flags(s: State, e: Event, id: string) {
    || (e.ChatSave? && e.ok && e.h in s.chats && s.chats[e.h].Looked?
        && s.chats[e.h].target.Some? && s.chats[e.h].m.msgId == id
        && forall row :: row in s.t.log ==> row.m.msgId != id)
    || (e.LoginMark? && e.h in s.logins && s.logins[e.h].Handing?
        && s.logins[e.h].left == [] && id in s.logins[e.h].ids)
  }

  lemma HasRow(log: seq<Stored>, id: string)
    ensures Has(log, id) <==> exists row :: row in log && row.m.msgId == id
  {
    if row :| row in log && row.m.msgId == id {
      var i :| 0 <= i < |log| && log[i] == row;
    }
  }

  lemma FlagStep(s: State, e: Event, id: string)
    requires Inv(s)
    ensures id in Step(s, e).t.delivered <==> id in s.t.delivered || Flags(s, e, id)
  {
    HasRow(s.t.log, id);
    if e.LoginMark? && e.h in s.logins && s.logins[e.h].Handing? && id in s.logins[e.h].ids {
      assert LoginOk(s, s.logins[e.h]);
      var row :| row in s.t.log && row.m.msgId == id && row.m.receiver == s.logins[e.h].user;
    }
    hide Numbered, Flagged, Pull, IndexOf, LoginOk;
  }

  ghost predicate FlaggedBy(events: seq<Event>, k: nat, id: string) {
    k < |events| && Flags(Run(events[..k]), events[k], id)
  }

  lemma FlaggedByPrefix(events: seq<Event>, n: nat, k: nat, id: string)
    requires k < n <= |events|
    ensures FlaggedBy(events[..n], k, id) <==> FlaggedBy(events, k, id)
  {
    hide Flags, Run;
    assert events[..n][..k] == events[..k];
  }

  /** In every interleaving a message is flagged exactly if some event before has flagged it. */
  lemma {:induction false} FlaggedExactlyWhen(events: seq<Event>, id: string)
    ensures id in Run(events).t.delivered <==> exists k: nat :: FlaggedBy(events, k, id)
  {
    if |events| > 0 {
      var n := |events| - 1;
      FlaggedExactlyWhen(events[..n], id);
      RunKeeps(events[..n]);
      FlagStep(Run(events[..n]), events[n], id);
      assert Run(events) == Step(Run(events[..n]), events[n]);
      assert FlaggedBy(events, n, id) <==> Flags(Run(events[..n]), events[n], id);
      hide *;
      if k: nat :| FlaggedBy(events[..n], k, id) {
        InRange(events[..n], k, id);
        FlaggedByPrefix(events, n, k, id);
      }
      if k: nat :| FlaggedBy(events, k, id) {
        InRange(events, k, id);
        if k < n {
          FlaggedByPrefix(events, n, k, id);
        }
      }
    }
  }

  lemma InRange(events: seq<Event>, k: nat, id: string)
    requires FlaggedBy(events, k, id)
    ensures k < |events|
  {
  }

  lemma {:induction false} RunOn(events: seq<Event>, more: seq<Event>)
    ensures Run(events + more) == RunFrom(Run(events), more)
  {
    if |more| == 0 {
      assert events + more == events;
    } else {
      assert (events + more)[..|events + more| - 1] == events + more[..|more| - 1];
      RunOn(events, more[..|more| - 1]);
    }
  }

  /** A flag is never taken back. */
  lemma {:induction false} FlagStays(events: seq<Event>, more: seq<Event>, id: string)
    requires id in Run(events).t.delivered
    ensures id in Run(events + more).t.delivered
  {
    if |more| == 0 {
      assert events + more == events;
    } else {
      var all := events + more;
      assert all[..|all| - 1] == events + more[..|more| - 1];
      FlagStays(events, more[..|more| - 1], id);
      RunKeeps(all[..|all| - 1]);
      FlagStep(Run(all[..|all| - 1]), all[|all| - 1], id);
      hide Flags, Step, Inv;
    }
  }

  lemma NotPulled(t: Table, user: int, id: string)
    requires id in t.delivered
    ensures forall row :: row in Pull(t, user) ==> row.m.msgId != id
  {
    PullIsExact(t, user, 0);
    hide Pull;
  }

  /** A message that a chat handler has stored for a receiver who was online is stored as it
      is, flagged, and in no later pull of anybody. */
  lemma ForwardedIsNotPulled(events: seq<Event>, h: nat, more: seq<Event>, user: int)
    requires var s := Run(events);
             && h in s.chats && s.chats[h].Looked? && s.chats[h].target.Some?
             && forall row :: row in s.t.log ==> row.m.msgId != s.chats[h].m.msgId
    ensures var m := Run(events).chats[h].m;
            var end := Run(events + [ChatSave(h, true)] + more);
            && (exists row :: row in end.t.log && row.m == m)
            && m.msgId in end.t.delivered
            && (forall row :: row in Pull(end.t, user) ==> row.m.msgId != m.msgId)
  {
    var s := Run(events);
    var saved := events + [ChatSave(h, true)];
    assert saved[..|events|] == events;
    RunKeeps(events);
    FlagStep(s, ChatSave(h, true), s.chats[h].m.msgId);
    FlagStays(saved, more, s.chats[h].m.msgId);
    var row := NextRow(s.t.log, s.chats[h].m);
    HasRow(s.t.log, row.m.msgId);
    assert Run(saved) == Step(s, ChatSave(h, true));
    assert Run(saved).t.log == s.t.log + [row] && Run(saved).t.log[|s.t.log|] == row;
    hide Step, Save, Flags, Inv;
    LogStays(saved, more);
    assert Run(saved + more).t.log[|s.t.log|] == row;
    NotPulled(Run(saved + more).t, user, row.m.msgId);
  }

  lemma {:induction false} LogStays(events: seq<Event>, more: seq<Event>)
    ensures Run(events).t.log <= Run(events + more).t.log
  {
    if |more| == 0 {
      assert events + more == events;
    } else {
      var all := events + more;
      assert all[..|all| - 1] == events + more[..|more| - 1];
      LogStays(events, more[..|more| - 1]);
      StepLog(Run(all[..|all| - 1]), all[|all| - 1]);
      hide Step;
    }
  }

  lemma StepLog(s: State, e: Event)
    ensures s.t.log <= Step(s, e).t.log && s.ever <= Step(s, e).ever
  {
    hide Pull, NextRow, IndexOf;
  }

  function IdsOf(rows: seq<Stored>): (ids: seq<string>)
    ensures |ids| == |rows| && forall i :: 0 <= i < |rows| ==> ids[i] == rows[i].m.msgId
  {
    seq(|rows|, i requires 0 <= i < |rows| => rows[i].m.msgId)
  }

  /** Where a login is after its pull: what it has handed over, and what is left, make up the pull. */
  ghost predicate Progress(s: State, h: nat, user: int, sess: Sess, pulled: seq<Stored>) {
    && h in s.logins && s.logins[h].Handing? && s.logins[h].user == user && s.logins[h].sess == sess
    && s.logins[h].ids + IdsOf(s.logins[h].left) == IdsOf(pulled)
    && forall id :: id in s.logins[h].ids ==> (sess, id) in s.handed
  }

  lemma ProgressStep(s: State, e: Event, h: nat, user: int, sess: Sess, pulled: seq<Stored>)
    requires Progress(s, h, user, sess, pulled) && e != LoginMark(h)
    ensures Progress(Step(s, e), h, user, sess, pulled)
  {
    if e == LoginDeliver(h) {
      DeliverStep(s, h, user, sess, pulled);
    } else {
      OthersLeave(s, e, h);
    }
    hide Step, IdsOf;
  }

  lemma DeliverStep(s: State, h: nat, user: int, sess: Sess, pulled: seq<Stored>)
    requires Progress(s, h, user, sess, pulled)
    ensures Progress(Step(s, LoginDeliver(h)), h, user, sess, pulled)
  {
    Handed(s, h);
    var l := s.logins[h];
    if |l.left| > 0 {
      IdsSplit(l.ids, l.left);
    }
    hide Step, IdsOf;
  }

  lemma Handed(s: State, h: nat)
    requires h in s.logins && s.logins[h].Handing?
    ensures var l, s' := s.logins[h], Step(s, LoginDeliver(h));
            if |l.left| == 0 then s' == s
            else
              && s'.handed == s.handed + {(l.sess, l.left[0].m.msgId)}
              && h in s'.logins && s'.logins[h] == l.(left := l.left[1..], ids := l.ids + [l.left[0].m.msgId])
  {
    hide Pull, Save, Mark;
  }

  lemma IdsSplit(ids: seq<string>, left: seq<Stored>)
    requires |left| > 0
    ensures (ids + [left[0].m.msgId]) + IdsOf(left[1..]) == ids + IdsOf(left)
  {
    assert IdsOf(left) == [left[0].m.msgId] + IdsOf(left[1..]);
  }

  lemma OthersLeave(s: State, e: Event, h: nat)
    requires h in s.logins && s.logins[h].Handing? && e != LoginMark(h) && e != LoginDeliver(h)
    ensures h in Step(s, e).logins && Step(s, e).logins[h] == s.logins[h] && s.handed <= Step(s, e).handed
  {
    hide Pull, Save, Mark;
  }

  lemma {:induction false} LoginProgress(s: State, h: nat, more: seq<Event>)
    requires h in s.logins && s.logins[h].Registered? && LoginMark(h) !in more
    ensures var l := s.logins[h];
            Progress(RunFrom(Step(s, LoginPull(h)), more), h, l.user, l.sess, Pull(s.t, l.user))
  {
    var l := s.logins[h];
    var pulled := Pull(s.t, l.user);
    hide Pull;
    if |more| == 0 {
      assert IdsOf(pulled) == [] + IdsOf(pulled);
    } else {
      LoginProgress(s, h, more[..|more| - 1]);
      ProgressStep(RunFrom(Step(s, LoginPull(h)), more[..|more| - 1]), more[|more| - 1], h, l.user, l.sess, pulled);
      hide Step, Progress;
    }
  }

  /** When a login marks, whatever others have done meanwhile, every message it has pulled has
      been handed to its session and is flagged, and so is in no later pull. */
  lemma LoginHandsOverAndMarks(events: seq<Event>, h: nat, more: seq<Event>, row: Stored, later: seq<Event>, user: int)
    requires h in Run(events).logins && Run(events).logins[h].Registered? && LoginMark(h) !in more
    requires row in Pull(Run(events).t, Run(events).logins[h].user)
    requires var s := Run(events + [LoginPull(h)] + more);
             h in s.logins && s.logins[h].Handing? && s.logins[h].left == []
    ensures var s := Run(events + [LoginPull(h)] + more + [LoginMark(h)]);
            (Run(events).logins[h].sess, row.m.msgId) in s.handed && row.m.msgId in s.t.delivered
    ensures var end := Run(events + [LoginPull(h)] + more + [LoginMark(h)] + later);
            forall q :: q in Pull(end.t, user) ==> q.m.msgId != row.m.msgId
  {
    var s, l := Run(events), Run(events).logins[h];
    var done := events + [LoginPull(h)] + more;
    AllHanded(events, h, more);
    RunKeeps(done);
    hide Pull, Inv, Progress, Flags;
    var s2 := Run(done);
    Marking(s2, h, l.user, l.sess, Pull(s.t, l.user), row);
    assert (done + [LoginMark(h)])[..|done|] == done;
    assert Run(done + [LoginMark(h)]) == Step(s2, LoginMark(h));
    hide Run, Step;
    FlagStays(done + [LoginMark(h)], later, row.m.msgId);
    NotPulled(Run(done + [LoginMark(h)] + later).t, user, row.m.msgId);
  }

  lemma AllHanded(events: seq<Event>, h: nat, more: seq<Event>)
    requires h in Run(events).logins && Run(events).logins[h].Registered? && LoginMark(h) !in more
    ensures var l := Run(events).logins[h];
            Progress(Run(events + [LoginPull(h)] + more), h, l.user, l.sess, Pull(Run(events).t, l.user))
  {
    hide Pull, Step, Progress;
    var pull := events + [LoginPull(h)];
    assert pull[..|events|] == events;
    assert Run(pull) == Step(Run(events), LoginPull(h));
    RunOn(pull, more);
    LoginProgress(Run(events), h, more);
  }

  /** A login that has handed over its whole pull marks each message of it. */
  lemma Marking(s: State, h: nat, user: int, sess: Sess, pulled: seq<Stored>, row: Stored)
    requires Inv(s) && Progress(s, h, user, sess, pulled) && s.logins[h].left == [] && row in pulled
    ensures var s' := Step(s, LoginMark(h)); (sess, row.m.msgId) in s'.handed && row.m.msgId in s'.t.delivered
  {
    FlagStep(s, LoginMark(h), row.m.msgId);
    hide Inv, Mark;
    assert s.logins[h].ids == IdsOf(pulled);
    var i :| 0 <= i < |pulled| && pulled[i] == row;
    assert IdsOf(pulled)[i] == row.m.msgId;
  }

  /** Exactly which messages a pull hands over: the receiver's own that no event has flagged. */
  lemma PulledExactlyWhen(events: seq<Event>, user: int, row: Stored)
    ensures row in Pull(Run(events).t, user) <==>
              && row in Run(events).t.log && row.m.receiver == user
              && !exists k: nat :: FlaggedBy(events, k, row.m.msgId)
  {
    FlaggedExactlyWhen(events, row.m.msgId);
    PullIsExact(Run(events).t, user, 0);
    hide *;
  }

  /** A message first stored while its receiver was being logged in, and sent again afterwards. */
  function Resending(m: Message, sess: Sess): seq<Event> {
    [ChatLookup(0, m), LoginReplace(0, m.receiver, sess), LoginPull(0), LoginMark(0),
     ChatSave(0, true), ChatForward(0), ChatLookup(0, m), ChatSave(0, true), ChatForward(0)]
  }

  lemma RunEach(e: seq<Event>)
    requires |e| == 9
    ensures Run(e) == Step(Step(Step(Step(Step(Step(Step(Step(Step(Begin, e[0]), e[1]), e[2]), e[3]), e[4]), e[5]),
                                     e[6]), e[7]), e[8])
  {
    hide Step;
    assert Run([]) == Begin && e[..1][..0] == [];
    assert e[..2][..1] == e[..1] && e[..3][..2] == e[..2] && e[..4][..3] == e[..3] && e[..5][..4] == e[..4];
    assert e[..6][..5] == e[..5] && e[..7][..6] == e[..6] && e[..8][..7] == e[..7];
    assert Run(e[..1]) == Step(Begin, e[0]) && Run(e[..2]) == Step(Run(e[..1]), e[1]);
    assert Run(e[..3]) == Step(Run(e[..2]), e[2]) && Run(e[..4]) == Step(Run(e[..3]), e[3]);
    assert Run(e[..5]) == Step(Run(e[..4]), e[4]) && Run(e[..6]) == Step(Run(e[..5]), e[5]);
    assert Run(e[..7]) == Step(Run(e[..6]), e[6]) && Run(e[..8]) == Step(Run(e[..7]), e[7]);
  }

  /** Being handed over by a chat is not enough: the input on which a message comes twice. It is
      stored unflagged, because its receiver was offline when looked up, and after the pull of
      the login in between; sent again under its id it is handed over, but the repeated save
      leaves the flag as it is, so the next login pulls it once more. */
  lemma ResentComesTwice(m: Message, sess: Sess)
    ensures var end := Run(Resending(m, sess));
            && (sess, m.msgId) in end.handed
            && exists row :: row in Pull(end.t, m.receiver) && row.m == m
  {
    RunEach(Resending(m, sess));
    var e, row := Resending(m, sess), NextRow([], m);
    hide Run, Save, NextRow, Pull, Mark, Step;
    FirstRound(m, sess);
    SecondRound(m, sess);
    assert e == [e[0], e[1], e[2], e[3], e[4], e[5], e[6], e[7], e[8]];
    PullIsExact(Run(e).t, m.receiver, 0);
    assert row in [row];
    RowOf(m);
  }

  lemma RowOf(m: Message)
    ensures NextRow([], m).m == m
  {
  }

  /** Stored unflagged, with the receiver online by now. */
  function Middle(m: Message, sess: Sess): State {
    State(Table([NextRow([], m)], {}), map[m.receiver := sess], {}, {(m.receiver, sess)}, {}, map[], map[])
  }

  lemma FirstRound(m: Message, sess: Sess)
    ensures Step(Step(Step(Step(Step(Step(Begin, ChatLookup(0, m)), LoginReplace(0, m.receiver, sess)), LoginPull(0)),
                                LoginMark(0)), ChatSave(0, true)), ChatForward(0)) == Middle(m, sess)
  {
    hide Save, NextRow, Pull, Mark;
    NothingPulled(m.receiver);
    FirstSave(m);
    var s0 := State(Empty, map[], {}, {}, {}, map[0 := Looked(m, None)], map[]);
    assert Step(Begin, ChatLookup(0, m)) == s0 && Mark(Empty, []) == Empty by { MarkNone(Empty); }
    hide Step;
    var s3 := State(Empty, map[m.receiver := sess], {}, {(m.receiver, sess)}, {}, map[0 := Looked(m, None)], map[]);
    LoggedInMeanwhile(s0, m.receiver, sess, s3);
    SavedThen(s3, m, None, Middle(m, sess));
  }

  lemma SecondRound(m: Message, sess: Sess)
    ensures Step(Step(Step(Middle(m, sess), ChatLookup(0, m)), ChatSave(0, true)), ChatForward(0))
            == Middle(m, sess).(handed := {(sess, m.msgId)})
  {
    hide Save, NextRow;
    var s6 := Middle(m, sess).(chats := map[0 := Looked(m, Some(sess))]);
    assert Step(Middle(m, sess), ChatLookup(0, m)) == s6;
    hide Step;
    Again(m, true);
    SavedThen(s6, m, Some(sess), Middle(m, sess).(handed := {(sess, m.msgId)}));
  }

  lemma NothingPulled(user: int)
    ensures Pull(Empty, user) == []
  {
    SomeIn(Pull(Empty, user));
    PullIsExact(Empty, user, 0);
  }

  lemma SomeIn(rows: seq<Stored>)
    ensures rows != [] ==> exists row :: row in rows
  {
    if rows != [] {
      assert rows[0] in rows;
    }
  }

  lemma FirstSave(m: Message)
    ensures Save(Empty, m, false) == (Table([NextRow([], m)], {}), NextRow([], m).number)
  {
    assert [] + [NextRow([], m)] == [NextRow([], m)];
  }

  lemma Again(m: Message, delivered: bool)
    ensures var t := Table([NextRow([], m)], {}); Save(t, m, delivered) == (t, NextRow([], m).number)
  {
  }

  lemma LoggedInMeanwhile(s: State, user: int, sess: Sess, s': State)
    requires s.logins == map[] && Pull(s.t, user) == [] && Mark(s.t, []) == s.t
    requires s' == s.(online := s.online[user := sess], ever := s.ever + {(user, sess)})
    ensures Step(Step(Step(s, LoginReplace(0, user, sess)), LoginPull(0)), LoginMark(0)) == s'
  {
    hide Pull, Mark;
    var a := Step(s, LoginReplace(0, user, sess));
    assert a.logins == map[0 := Registered(user, sess)];
    var b := Step(a, LoginPull(0));
    assert b.logins == map[0 := Handing(user, sess, [], [])];
    assert Step(b, LoginMark(0)).logins == map[];
  }

  lemma SavedThen(s: State, m: Message, target: Option<Sess>, s': State)
    requires s.chats == map[0 := Looked(m, target)]
    requires s' == s.(t := Save(s.t, m, target.Some?).0, chats := map[],
                      handed := if target.Some? then s.handed + {(target.value, m.msgId)} else s.handed)
    ensures Step(Step(s, ChatSave(0, true)), ChatForward(0)) == s'
  {
    hide Save;
    assert Step(Step(s, ChatSave(0, true)), ChatForward(0)).chats == map[];
  }

  /** A new login is the one that is found from then on: until a newer login, or its own closing,
      a chat that looks its user up finds its session, as long as that exists. */
  lemma NewestLoginIsFound(events: seq<Event>, h: nat, user: int, sess: Sess, more: seq<Event>, g: nat, m: Message)
    requires h !in Run(events).logins && m.receiver == user
    requires forall e :: e in more ==> !Displaces(e, user, sess)
    ensures var s := Run(events + [LoginReplace(h, user, sess)] + more);
            && (user, sess) in s.ever
            && (g !in s.chats && sess !in s.expired ==>
                  Step(s, ChatLookup(g, m)).chats[g] == Looked(m, Some(sess)))
            && (sess !in s.expired ==> user !in Step(s, Closing(user, sess)).online)
  {
    var registered := events + [LoginReplace(h, user, sess)];
    assert registered[..|events|] == events;
    RunOn(registered, more);
    RegistrationStays(Run(registered), more, user);
    EverStays(Run(registered), more);
    hide Pull, Save, Mark;
  }

  lemma {:induction false} EverStays(s: State, more: seq<Event>)
    ensures s.ever <= RunFrom(s, more).ever
  {
    if |more| > 0 {
      EverStays(s, more[..|more| - 1]);
      StepLog(RunFrom(s, more[..|more| - 1]), more[|more| - 1]);
      hide Step;
    }
  }

  /** Once a chat has found its receiver's session, that session is handed the message unless
      the save fails: no step of others takes it away. */
  lemma {:induction false} FoundIsHanded(s: State, h: nat, more: seq<Event>)
    requires h in s.chats && s.chats[h].Looked? && s.chats[h].target.Some?
    requires ChatSave(h, true) !in more && ChatSave(h, false) !in more
    ensures h in RunFrom(s, more).chats && RunFrom(s, more).chats[h] == s.chats[h]
    ensures var t := Step(RunFrom(s, more), ChatSave(h, true));
            (s.chats[h].target.value, s.chats[h].m.msgId) in Step(t, ChatForward(h)).handed
  {
    if |more| > 0 {
      FoundIsHanded(s, h, more[..|more| - 1]);
      StillLooked(RunFrom(s, more[..|more| - 1]), more[|more| - 1], h);
    }
    SavedAndForwarded(RunFrom(s, more), h);
    hide Step;
  }

  lemma StillLooked(s: State, e: Event, h: nat)
    requires h in s.chats && s.chats[h].Looked? && e != ChatSave(h, true) && e != ChatSave(h, false)
    ensures h in Step(s, e).chats && Step(s, e).chats[h] == s.chats[h]
  {
    hide Pull, Save, Mark;
  }

  lemma SavedAndForwarded(s: State, h: nat)
    requires h in s.chats && s.chats[h].Looked? && s.chats[h].target.Some?
    ensures (s.chats[h].target.value, s.chats[h].m.msgId)
            in Step(Step(s, ChatSave(h, true)), ChatForward(h)).handed
  {
    hide Save;
  }
}
