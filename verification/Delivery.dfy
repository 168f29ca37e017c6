// Who is handed which message: MessageHandler.onChat, AuthHandler.activateSession and Presence.

/** Every interleaving of the handlers' atomic actions. */
module Delivery {
  import opened Options
  import opened MessageLog

  type Sess = nat

  /** Where a chat handler is: it has looked the receiver up, or also saved the message. */
  datatype Chat = Looked(m: Message, target: Option<Sess>) | Kept(m: Message, number: int, target: Option<Sess>)

  /** Where a login is: registered, or handing over what it pulled. */
  datatype Login = Registered(user: int, sess: Sess)
                 | Handing(user: int, sess: Sess, left: seq<Stored>, ids: seq<string>)

  /** `online` is Presence's map, `expired` the sessions that no longer exist, `ever` every
      registration there has been, and `handed` every message given to a session. */
  datatype State = State(t: Table, online: map<int, Sess>, expired: set<Sess>, ever: set<(int, Sess)>,
                         handed: set<(Sess, string)>, chats: map<nat, Chat>, logins: map<nat, Login>)

  const Begin := State(Empty, map[], {}, {}, {}, map[], map[])

  datatype Event =
    | ChatLookup(h: nat, m: Message)
    | ChatSave(h: nat, ok: bool)
    | ChatForward(h: nat)
    | LoginReplace(h: nat, user: int, sess: Sess)
    | LoginPull(h: nat)
    | LoginDeliver(h: nat)
    | LoginMark(h: nat)
    | Closing(user: int, sess: Sess)
    | Expire(sess: Sess)

  /** Presence::get; the map holds weak references. */
  function Get(online: map<int, Sess>, expired: set<Sess>, user: int): Option<Sess> {
    if user in online && online[user] !in expired then Some(online[user]) else None
  }

  /** Presence::offline: only the session that is registered is taken out. */
  function Offline(online: map<int, Sess>, expired: set<Sess>, user: int, sess: Sess): map<int, Sess> {
    if Get(online, expired, user) == Some(sess) then online - {user} else online
  }

  function ChatStep(s: State, e: Event): State {
    match e
    case ChatLookup(h, m) =>
      if h in s.chats then s else s.(chats := s.chats[h := Looked(m, Get(s.online, s.expired, m.receiver))])
    case ChatSave(h, ok) =>
      if h !in s.chats || !s.chats[h].Looked? then s
      else if !ok then s.(chats := s.chats - {h})
      else
        var c := s.chats[h];
        var r := Save(s.t, c.m, c.target.Some?);
        s.(t := r.0, chats := s.chats[h := Kept(c.m, r.1, c.target)])
    case ChatForward(h) =>
      if h !in s.chats || !s.chats[h].Kept? then s
      else
        var c := s.chats[h];
        s.(chats := s.chats - {h},
           handed := if c.target.Some? then s.handed + {(c.target.value, c.m.msgId)} else s.handed)
    case _ => s
  }

  function LoginStep(s: State, e: Event): State {
    match e
    case LoginReplace(h, user, sess) =>
      if h in s.logins then s
      else s.(online := s.online[user := sess], ever := s.ever + {(user, sess)},
          logins := s.logins[h := Registered(user, sess)])
    case LoginPull(h) =>
      if h !in s.logins || !s.logins[h].Registered? then s
      else
        var l := s.logins[h];
        s.(logins := s.logins[h := Handing(l.user, l.sess, Pull(s.t, l.user), [])])
    case LoginDeliver(h) =>
      if h !in s.logins || !s.logins[h].Handing? || |s.logins[h].left| == 0 then s
      else
        var l := s.logins[h];
        var id := l.left[0].m.msgId;
        s.(handed := s.handed + {(l.sess, id)}, logins := s.logins[h := l.(left := l.left[1..], ids := l.ids + [id])])
    case LoginMark(h) =>
      if h !in s.logins || !s.logins[h].Handing? || |s.logins[h].left| > 0 then s
      else s.(t := Mark(s.t, s.logins[h].ids), logins := s.logins - {h})
    case _ => s
  }

  function Step(s: State, e: Event): State {
    match e
    case ChatLookup(_, _) => ChatStep(s, e)
    case ChatSave(_, _) => ChatStep(s, e)
    case ChatForward(_) => ChatStep(s, e)
    case Closing(user, sess) => s.(online := Offline(s.online, s.expired, user, sess))
    case Expire(sess) => s.(expired := s.expired + {sess})
    case _ => LoginStep(s, e)
  }

  function Run(events: seq<Event>): State {
    if |events| == 0 then Begin else Step(Run(events[..|events| - 1]), events[|events| - 1])
  }

  // ------------------------------------------------------------------ what every step keeps

  /** A chat handler that is about to hand the message to the session. */
  ghost predicate AboutTo(chats: map<nat, Chat>, sess: Sess, msgId: string) {
    exists h :: h in chats && chats[h].Kept? && chats[h].target == Some(sess) && chats[h].m.msgId == msgId
  }

  /** Some session registered for the receiver has been, or is about to be, handed the message. */
  ghost predicate Accounted(s: State, row: Stored) {
    exists sess: Sess :: (row.m.receiver, sess) in s.ever
                   && ((sess, row.m.msgId) in s.handed || AboutTo(s.chats, sess, row.m.msgId))
  }

  ghost predicate Flagged(s: State) {
    forall row :: row in s.t.log && row.m.msgId in s.t.delivered ==> Accounted(s, row)
  }

  ghost predicate RowFor(log: seq<Stored>, msgId: string, user: int) {
    exists row :: row in log && row.m.msgId == msgId && row.m.receiver == user
  }

  ghost predicate ChatOk(s: State, c: Chat) { c.target.Some? ==> (c.m.receiver, c.target.value) in s.ever }

  ghost predicate LoginOk(s: State, l: Login) {
    && (l.user, l.sess) in s.ever
    && (l.Handing? ==>
         && (forall row :: row in l.left ==> row in s.t.log && row.m.receiver == l.user)
         && (forall id :: id in l.ids ==> (l.sess, id) in s.handed && RowFor(s.t.log, id, l.user)))
  }

  ghost predicate Inv(s: State) {
    && Numbered(s.t.log)
    && (forall id :: id in s.t.delivered ==> Has(s.t.log, id))
    && Flagged(s)
    && (forall user :: user in s.online ==> (user, s.online[user]) in s.ever)
    && (forall h :: h in s.chats ==> ChatOk(s, s.chats[h]))
    && (forall h :: h in s.logins ==> LoginOk(s, s.logins[h]))
  }

  /** Growing logs, registrations and deliveries keep what is accounted for. */
  ghost predicate Grows(s: State, s': State) {
    s.t.log <= s'.t.log && s.ever <= s'.ever && s.handed <= s'.handed
  }

  lemma LoginOkGrows(s: State, s': State, l: Login)
    requires Grows(s, s') && LoginOk(s, l)
    ensures LoginOk(s', l)
  {
    forall row | row in s.t.log ensures row in s'.t.log {
      var i :| 0 <= i < |s.t.log| && s.t.log[i] == row;
      assert s'.t.log[i] == row;
    }
    if l.Handing? {
      forall id | id in l.ids ensures RowFor(s'.t.log, id, l.user) {
        var row :| row in s.t.log && row.m.msgId == id && row.m.receiver == l.user;
      }
    }
  }

  lemma AccountedGrows(s: State, s': State, row: Stored)
    requires s.ever <= s'.ever && s.handed <= s'.handed && Accounted(s, row)
    requires forall h :: h in s.chats && s.chats[h].Kept? && h !in s'.chats && s.chats[h].target.Some? ==>
               (s.chats[h].target.value, s.chats[h].m.msgId) in s'.handed
    requires forall h :: h in s.chats && s.chats[h].Kept? && h in s'.chats ==> s'.chats[h] == s.chats[h]
    ensures Accounted(s', row)
  {
    var sess: Sess :| (row.m.receiver, sess) in s.ever
                && ((sess, row.m.msgId) in s.handed || AboutTo(s.chats, sess, row.m.msgId));
    if (sess, row.m.msgId) !in s.handed {
      var h :| h in s.chats && s.chats[h].Kept? && s.chats[h].target == Some(sess) && s.chats[h].m.msgId == row.m.msgId;
      if h in s'.chats {
        assert AboutTo(s'.chats, sess, row.m.msgId);
      }
    }
  }

  lemma SaveKeepsInv(s: State, h: nat)
    requires Inv(s) && h in s.chats && s.chats[h].Looked?
    ensures Inv(ChatStep(s, ChatSave(h, true)))
  {
    var s' := ChatStep(s, ChatSave(h, true));
    var c := s.chats[h];
    WriteKeepsNumbers(s.t, SaveOf(c.m, c.target.Some?));
    SaveLog(s.t, c.m, c.target.Some?);
    hide Numbered, Has, Save;
    forall row | row in s'.t.log && row.m.msgId in s'.t.delivered ensures Accounted(s', row) {
      if row in s.t.log && row.m.msgId in s.t.delivered {
        AccountedGrows(s, s', row);
      } else {
        assert row.m.msgId == c.m.msgId && c.target.Some? && row.m.receiver == c.m.receiver;
        assert ChatOk(s, c);
        assert s'.chats[h].Kept? && s'.chats[h].target == c.target;
        assert AboutTo(s'.chats, c.target.value, row.m.msgId);
      }
    }
    forall k | k in s'.chats ensures ChatOk(s', s'.chats[k]) {
      assert ChatOk(s, s.chats[k]);
    }
    forall k | k in s'.logins ensures LoginOk(s', s'.logins[k]) {
      LoginOkGrows(s, s', s.logins[k]);
    }
  }

  lemma WriteKeepsNumbers(t: Table, w: Write)
    requires Numbered(t.log) && forall id :: id in t.delivered ==> Has(t.log, id)
    ensures var t' := Exec(t, w).0; Numbered(t'.log) && forall id :: id in t'.delivered ==> Has(t'.log, id)
  {
    if w.SaveOf? {
      SaveKeeps(t, w.m, w.delivered);
      var row := NextRow(t.log, w.m);
      hide Numbered, NextRow;
      forall id ensures Has(t.log + [row], id) <==> Has(t.log, id) || id == row.m.msgId {
        IndexAppend(t.log, [row], id);
      }
    }
  }

  /** A save either changes nothing, or adds one row, flagged or not. */
  lemma SaveLog(t: Table, m: Message, delivered: bool)
    requires forall id :: id in t.delivered ==> Has(t.log, id)
    ensures var t' := Save(t, m, delivered).0;
            && t.log <= t'.log && t.delivered <= t'.delivered
            && (forall row ::
                  row in t'.log && row.m.msgId in t'.delivered && !(row in t.log && row.m.msgId in t.delivered) ==>
                  row.m == m && delivered)
  {
    var t' := Save(t, m, delivered).0;
    forall row | row in t.log && !Has(t.log, m.msgId) ensures row.m.msgId != m.msgId {
      var i :| 0 <= i < |t.log| && t.log[i] == row;
    }
  }

  lemma ForwardKeepsInv(s: State, h: nat)
    requires Inv(s) && h in s.chats && s.chats[h].Kept?
    ensures Inv(ChatStep(s, ChatForward(h)))
  {
    var s' := ChatStep(s, ChatForward(h));
    hide Numbered, Has;
    forall row | row in s'.t.log && row.m.msgId in s'.t.delivered ensures Accounted(s', row) {
      AccountedGrows(s, s', row);
    }
    forall k | k in s'.chats ensures ChatOk(s', s'.chats[k]) {
      assert ChatOk(s, s.chats[k]);
    }
    forall k | k in s'.logins ensures LoginOk(s', s'.logins[k]) {
      LoginOkGrows(s, s', s.logins[k]);
    }
  }

  /** Steps that change neither the table nor a handler that has saved. */
  lemma QuietKeepsInv(s: State, s': State)
    requires Inv(s) && s'.t == s.t && s.ever <= s'.ever && s.handed <= s'.handed
    requires forall h :: h in s.chats && s.chats[h].Kept? ==> h in s'.chats && s'.chats[h] == s.chats[h]
    requires forall h :: h in s'.chats ==> ChatOk(s', s'.chats[h])
    requires forall user :: user in s'.online ==> (user, s'.online[user]) in s'.ever
    requires forall h :: h in s'.logins ==> (h in s.logins && s'.logins[h] == s.logins[h]) || LoginOk(s', s'.logins[h])
    ensures Inv(s')
  {
    hide Numbered, Has;
    forall row | row in s'.t.log && row.m.msgId in s'.t.delivered ensures Accounted(s', row) {
      AccountedGrows(s, s', row);
    }
    forall k | k in s'.logins ensures LoginOk(s', s'.logins[k]) {
      if k in s.logins && s'.logins[k] == s.logins[k] {
        LoginOkGrows(s, s', s.logins[k]);
      }
    }
  }

  lemma ChatStepKeeps(s: State, e: Event)
    requires Inv(s) && (e.ChatLookup? || e.ChatSave? || e.ChatForward?)
    ensures Inv(ChatStep(s, e))
  {
    var s' := ChatStep(s, e);
    match e
    case ChatLookup(h, m) =>
      hide Numbered, Has, LoginOk, Flagged;
      QuietKeepsInv(s, s');
    case ChatSave(h, ok) =>
      if h in s.chats && s.chats[h].Looked? && ok {
        SaveKeepsInv(s, h);
      } else {
        hide Numbered, Has, LoginOk, Flagged, Save;
        QuietKeepsInv(s, s');
      }
    case ChatForward(h) =>
      if h in s.chats && s.chats[h].Kept? {
        ForwardKeepsInv(s, h);
      }
      hide Inv;
  }

  lemma MarkKeepsInv(s: State, h: nat)
    requires Inv(s) && h in s.logins && s.logins[h].Handing? && |s.logins[h].left| == 0
    ensures Inv(LoginStep(s, LoginMark(h)))
  {
    var s' := LoginStep(s, LoginMark(h));
    var l := s.logins[h];
    assert LoginOk(s, l);
    forall row | row in s'.t.log && row.m.msgId in s'.t.delivered ensures Accounted(s', row) {
      if row.m.msgId in s.t.delivered {
        AccountedGrows(s, s', row);
      } else {
        var id := row.m.msgId;
        assert id in l.ids && RowFor(s.t.log, id, l.user);
        var other :| other in s.t.log && other.m.msgId == id && other.m.receiver == l.user;
        SameId(s.t.log, row, other);
        assert (l.user, l.sess) in s'.ever && (l.sess, id) in s'.handed;
      }
    }
    hide Numbered, Has, Flagged;
    forall k | k in s'.chats ensures ChatOk(s', s'.chats[k]) {
      assert ChatOk(s, s.chats[k]);
    }
    forall k | k in s'.logins ensures LoginOk(s', s'.logins[k]) {
      LoginOkGrows(s, s', s.logins[k]);
    }
  }

  lemma SameId(log: seq<Stored>, a: Stored, b: Stored)
    requires Numbered(log) && a in log && b in log && a.m.msgId == b.m.msgId
    ensures a == b
  {
    var i :| 0 <= i < |log| && log[i] == a;
    var j :| 0 <= j < |log| && log[j] == b;
  }

  lemma DeliverKeepsInv(s: State, h: nat)
    requires Inv(s) && h in s.logins && s.logins[h].Handing? && |s.logins[h].left| > 0
    ensures Inv(LoginStep(s, LoginDeliver(h)))
  {
    var s' := LoginStep(s, LoginDeliver(h));
    var l, l' := s.logins[h], s'.logins[h];
    assert LoginOk(s, l);
    assert l.left[0] in l.left;
    LoginOkGrows(s, s', l);
    assert RowFor(s'.t.log, l.left[0].m.msgId, l.user);
    assert LoginOk(s', l');
    forall k | k in s'.chats ensures ChatOk(s', s'.chats[k]) {
      assert ChatOk(s, s.chats[k]);
    }
    hide Numbered, Has, LoginOk, Flagged, RowFor;
    QuietKeepsInv(s, s');
  }

  lemma ReplaceKeepsInv(s: State, h: nat, user: int, sess: Sess)
    requires Inv(s)
    ensures Inv(LoginStep(s, LoginReplace(h, user, sess)))
  {
    var s' := LoginStep(s, LoginReplace(h, user, sess));
    hide Numbered, Has, Flagged;
    forall k | k in s'.logins && k !in s.logins ensures LoginOk(s', s'.logins[k]) {
    }
    forall k | k in s'.chats ensures ChatOk(s', s'.chats[k]) {
      assert ChatOk(s, s.chats[k]);
    }
    hide LoginOk, ChatOk;
    QuietKeepsInv(s, s');
  }

  lemma PulledOk(s: State, s': State, l: Login)
    requires LoginOk(s, l) && l.Registered? && s'.t == s.t && s'.ever == s.ever
    ensures LoginOk(s', Handing(l.user, l.sess, Pull(s.t, l.user), []))
  {
    PullIsExact(s.t, l.user, 0);
    hide Pull;
  }

  lemma PullKeepsInv(s: State, h: nat)
    requires Inv(s) && h in s.logins && s.logins[h].Registered?
    ensures Inv(LoginStep(s, LoginPull(h)))
  {
    hide Numbered, Has, Flagged, Pull, LoginOk, ChatOk;
    var s' := LoginStep(s, LoginPull(h));
    PulledOk(s, s', s.logins[h]);
    forall k | k in s'.chats ensures ChatOk(s', s'.chats[k]) {
      SameChatOk(s, s', s.chats[k]);
    }
    QuietKeepsInv(s, s');
  }

  lemma SameChatOk(s: State, s': State, c: Chat)
    requires ChatOk(s, c) && s.ever <= s'.ever
    ensures ChatOk(s', c)
  {
  }

  lemma LoginStepKeeps(s: State, e: Event)
    requires Inv(s) && (e.LoginReplace? || e.LoginPull? || e.LoginDeliver? || e.LoginMark?)
    ensures Inv(LoginStep(s, e))
  {
    hide Inv, Pull, Mark;
    match e
    case LoginReplace(h, user, sess) => ReplaceKeepsInv(s, h, user, sess);
    case LoginPull(h) =>
      if h in s.logins && s.logins[h].Registered? {
        PullKeepsInv(s, h);
      }
    case LoginDeliver(h) =>
      if h in s.logins && s.logins[h].Handing? && |s.logins[h].left| > 0 {
        DeliverKeepsInv(s, h);
      }
    case LoginMark(h) =>
      if h in s.logins && s.logins[h].Handing? && |s.logins[h].left| == 0 {
        MarkKeepsInv(s, h);
      }
  }

  lemma {:induction false} RunKeeps(events: seq<Event>)
    ensures Inv(Run(events))
  {
    if |events| == 0 {
      NumbersAreConsecutive([]);
      assert After(Empty, []) == Empty;
    } else {
      var s, e := Run(events[..|events| - 1]), events[|events| - 1];
      RunKeeps(events[..|events| - 1]);
      StepKeeps(s, e);
    }
  }

  lemma StepKeeps(s: State, e: Event)
    requires Inv(s)
    ensures Inv(Step(s, e))
  {
    if e.ChatLookup? || e.ChatSave? || e.ChatForward? {
      ChatStepKeeps(s, e);
    } else if e.Closing? || e.Expire? {
      hide Numbered, Has, Flagged, LoginOk;
      QuietKeepsInv(s, Step(s, e));
    } else {
      LoginStepKeeps(s, e);
    }
  }

  /** In every interleaving a stored message flagged delivered has been handed, or is about to
      be by the same chat handler, to a session that was registered for its receiver; once no
      chat handler is in between, it has been handed. */
  lemma FlaggedIsHanded(events: seq<Event>, row: Stored)
    requires row in Run(events).t.log && row.m.msgId in Run(events).t.delivered
    ensures Accounted(Run(events), row)
    ensures (forall h :: h in Run(events).chats ==> Run(events).chats[h].Looked?) ==>
              exists sess: Sess :: (row.m.receiver, sess) in Run(events).ever
                  && (sess, row.m.msgId) in Run(events).handed
  {
    RunKeeps(events);
    hide Run, Numbered, Has, LoginOk;
    var s := Run(events);
    var sess: Sess :| (row.m.receiver, sess) in s.ever
                && ((sess, row.m.msgId) in s.handed || AboutTo(s.chats, sess, row.m.msgId));
  }

  /** An unflagged message is among what its receiver's next pull hands over; and only the
      receiver's own unflagged messages are. */
  lemma UnflaggedIsPulled(events: seq<Event>, h: nat, row: Stored)
    requires h in Run(events).logins && Run(events).logins[h].Registered?
    ensures var s, s' := Run(events), Run(events + [LoginPull(h)]);
            row in s'.logins[h].left <==>
              row in s.t.log && row.m.receiver == s.logins[h].user && row.m.msgId !in s.t.delivered
  {
    assert (events + [LoginPull(h)])[..|events|] == events;
    PullIsExact(Run(events).t, Run(events).logins[h].user, 0);
  }

  /** Events that may end a registration. */
  predicate Displaces(e: Event, user: int, sess: Sess) {
    match e
    case LoginReplace(_, u, _) => u == user
    case Closing(u, s) => u == user && s == sess
    case _ => false
  }

  /** A registration survives everything but its own session's closing and a newer login:
      above all, the closing of the sessions it displaced. */
  lemma {:induction false} RegistrationStays(s: State, events: seq<Event>, user: int)
    requires user in s.online
    requires forall e :: e in events ==> !Displaces(e, user, s.online[user])
    ensures var s' := RunFrom(s, events); user in s'.online && s'.online[user] == s.online[user]
  {
    if |events| > 0 {
      RegistrationStays(s, events[..|events| - 1], user);
      assert events[|events| - 1] in events;
      StepKeepsRegistration(RunFrom(s, events[..|events| - 1]), events[|events| - 1], user);
    }
  }

  lemma StepKeepsRegistration(s: State, e: Event, user: int)
    requires user in s.online && !Displaces(e, user, s.online[user])
    ensures user in Step(s, e).online && Step(s, e).online[user] == s.online[user]
  {
    hide Save, Pull, Mark;
  }

  function RunFrom(s: State, events: seq<Event>): State {
    if |events| == 0 then s else Step(RunFrom(s, events[..|events| - 1]), events[|events| - 1])
  }
}

/** The objects: Presence, and the two handlers over it, the database and the sessions' outboxes. */
module DeliveryServer {
  import opened Options
  import opened MessageLog
  import D = Delivery

  type Sess = D.Sess

  datatype Result = Succ | Fail | NotFriend | FileNotOwned | ServerError

  datatype Frame = ChatRq(m: Message, number: int)
                 | ChatRs(friend: int, msgId: string, number: int, result: Result)
                 | FriendInfo(user: int, online: bool)
                 | KickedOffline

  type Outbox = seq<(Sess, Frame)>

  function HandedOf(outbox: Outbox): set<(Sess, string)> {
    set f | f in outbox && f.1.ChatRq? :: (f.0, f.1.m.msgId)
  }

  lemma HandedAppend(outbox: Outbox, sess: Sess, f: Frame)
    ensures HandedOf(outbox + [(sess, f)]) == HandedOf(outbox) + if f.ChatRq? then {(sess, f.m.msgId)} else {}
  {
    assert (sess, f) in outbox + [(sess, f)];
  }

  class Presence {
    var online: map<int, Sess>
    var expired: set<Sess>

    constructor ()
      ensures online == map[] && expired == {}
    {
      online, expired := map[], {};
    }

    method Lookup(userId: int) returns (sess: Option<Sess>)
      ensures sess == D.Get(online, expired, userId)
    {
      if userId !in online || online[userId] in expired {
        return None;
      }
      sess := Some(online[userId]);
    }

    /** In one step: who was registered, and the new registration. */
    method Replace(userId: int, sess: Sess) returns (was: Option<Sess>)
      modifies this
      ensures was == D.Get(old(online), expired, userId)
      ensures online == old(online)[userId := sess] && expired == old(expired)
    {
      was := Lookup(userId);
      online := online[userId := sess];
    }

    /** A session reports its own closing; a newer registration is left alone. */
    method Offline(userId: int, sess: Sess)
      modifies this
      ensures online == D.Offline(old(online), expired, userId, sess) && expired == old(expired)
      ensures userId in old(online) && old(online)[userId] != sess ==> online == old(online)
    {
      if userId in online {
        var registered := Lookup(userId);
        if registered == Some(sess) {
          online := online - {userId};
        }
      }
    }
  }

  /** ChatInfoRq; a type the server does not know is treated as text. */
  datatype Kind = TextKind | ImageKind | FileKind

  datatype ChatRequest = ChatRequest(
    receiver: int, kind: Kind, msgId: string, msg: string, fileName: string, width: int, height: int,
    fileId: string, contentType: string, sha256: string)

  datatype Upload = Upload(
    uploader: int, receiver: int, mediaPath: string, sha256: string, size: int, contentType: string)

  predicate IsMedia(k: Kind) { k.ImageKind? || k.FileKind? }

  /** Media must have been uploaded by the sender for this receiver. */
  predicate Owned(uploads: map<string, Upload>, userId: int, rq: ChatRequest) {
    rq.fileId in uploads && uploads[rq.fileId].uploader == userId && uploads[rq.fileId].receiver == rq.receiver
  }

  predicate Admitted(uploads: map<string, Upload>, userId: int, friend: bool, rq: ChatRequest) {
    userId > 0 && friend && (IsMedia(rq.kind) ==> Owned(uploads, userId, rq))
  }

  /** The message says what the request says: the sender who is logged in, the receiver asked for,
      the time, the id asked for or a generated one, the text of a text or an image and the
      name of a file, and for media the path, size, type and hash of the upload, never those
      the request claims. */
  predicate Carries(m: Message, uploads: map<string, Upload>, userId: int, rq: ChatRequest, now: int, generated: string)
  {
    && m.sender == userId && m.receiver == rq.receiver && m.ts == now
    && m.msgId == (if rq.msgId == "" then generated else rq.msgId)
    && (rq.kind.FileKind? ==> m.body.content == rq.fileName && m.body.kind == 2)
    && (rq.kind.ImageKind? ==> m.body.content == rq.msg && m.body.kind == 1)
    && (rq.kind.TextKind? ==> m.body.content == rq.msg && m.body.kind == 0)
    && m.body.width == rq.width && m.body.height == rq.height && m.body.fileId == rq.fileId
    && (IsMedia(rq.kind) ==>
          && rq.fileId in uploads
          && m.body.mediaPath == uploads[rq.fileId].mediaPath && m.body.fileSize == uploads[rq.fileId].size
          && m.body.contentType == uploads[rq.fileId].contentType && m.body.sha256 == uploads[rq.fileId].sha256)
    && (!IsMedia(rq.kind) ==>
          && m.body.mediaPath == "" && m.body.fileSize == 0
          && m.body.contentType == rq.contentType && m.body.sha256 == rq.sha256)
  }

  /** The message is the last row, as it is, and flagged if it is handed over. */
  ghost predicate Keeps(t: Table, m: Message, handed: bool, t': Table) {
    && |t'.log| == |t.log| + 1 && t'.log[..|t.log|] == t.log && t'.log[|t.log|].m == m
    && (handed ==> t'.delivered == t.delivered + {m.msgId})
    && (!handed ==> t'.delivered == t.delivered)
  }

  lemma KeepsNew(t: Table, m: Message, handed: bool)
    ensures !Has(t.log, m.msgId) ==> Keeps(t, m, handed, Save(t, m, handed).0)
  {
  }

  /** That fixes the message. */
  lemma OneMessage(m: Message, n: Message, uploads: map<string, Upload>, userId: int, rq: ChatRequest, now: int,
                   generated: string)
    requires Carries(m, uploads, userId, rq, now, generated) && Carries(n, uploads, userId, rq, now, generated)
    ensures m == n
  {
  }

  /** Why a request is turned away: nobody logged in gets no answer. */
  function Refusal(sess: Sess, userId: int, friend: bool, rq: ChatRequest): Outbox {
    if userId <= 0 then []
    else [(sess, ChatRs(rq.receiver, rq.msgId, 0, if !friend then NotFriend else FileNotOwned))]
  }

  /** The answer of a chat handler to its sender and, if the receiver is online, the message. */
  function ChatFrames(sess: Sess, m: Message, number: int, target: Option<Sess>): Outbox {
    if target.Some?
    then [(target.value, ChatRq(m, number)), (sess, ChatRs(m.receiver, m.msgId, number, Succ))]
    else [(sess, ChatRs(m.receiver, m.msgId, number, Fail))]
  }

  /** What one login hands over: each message, and a receipt to its sender if online. */
  function Handover(sess: Sess, user: int, rows: seq<Stored>, online: map<int, Sess>, expired: set<Sess>): Outbox {
    if |rows| == 0 then []
    else
      var row := rows[|rows| - 1];
      var sender := D.Get(online, expired, row.m.sender);
      Handover(sess, user, rows[..|rows| - 1], online, expired)
      + [(sess, ChatRq(row.m, row.number))]
      + (if sender.Some? then [(sender.value, ChatRs(user, row.m.msgId, row.number, Succ))] else [])
  }

  /** FriendInfo goes out only for users the database knows. */
  function Info(to: Sess, user: int, online: bool, known: set<int>): Outbox {
    if user in known then [(to, FriendInfo(user, online))] else []
  }

  /** A login tells the session about each friend, and each friend who is online about the login. */
  function Greetings(sess: Sess, user: int, friends: seq<int>, known: set<int>, online: map<int, Sess>,
      expired: set<Sess>): Outbox {
    if |friends| == 0 then Info(sess, user, true, known)
    else
      var f := friends[|friends| - 1];
      var there := D.Get(online, expired, f);
      Greetings(sess, user, friends[..|friends| - 1], known, online, expired)
      + Info(sess, f, there.Some?, known) + (if there.Some? then Info(there.value, user, true, known) else [])
  }

  /** The actions of one login without interruption, as handler h. */
  function LoginEvents(h: nat, user: int, sess: Sess, n: nat): seq<D.Event>
  {
    [D.LoginReplace(h, user, sess), D.LoginPull(h)] + seq(n, i => D.LoginDeliver(h))
  }

  class Handlers {
    const presence: Presence
    const db: Database
    var outbox: Outbox
    var closing: set<Sess>
    var uploads: map<string, Upload>
    ghost var ever: set<(int, Sess)>

    constructor (presence: Presence, db: Database)
      ensures this.presence == presence && this.db == db && outbox == [] && closing == {} && uploads == map[]
              && ever == {}
    {
      this.presence, this.db, outbox, closing, uploads, ever := presence, db, [], {}, map[], {};
    }

    ghost function Contents(): D.State
      reads this, presence, db
    {
      D.State(db.Contents(), presence.online, presence.expired, ever, HandedOf(outbox), map[], map[])
    }

    method Deliver(sess: Sess, f: Frame)
      modifies this`outbox
      ensures outbox == old(outbox) + [(sess, f)]
      ensures HandedOf(outbox) == HandedOf(old(outbox)) + if f.ChatRq? then {(sess, f.m.msgId)} else {}
    {
      HandedAppend(outbox, sess, f);
      outbox := outbox + [(sess, f)];
    }

    /** onChat. `friend` is what the friend table says, `generated` the id for a request without
        one, and `begun` and `stored` how the save's transaction goes. */
    method OnChat(sess: Sess, userId: int, rq: ChatRequest, friend: bool, now: int, generated: string, begun: bool,
        stored: bool)
      returns (ghost m: Message)
      requires db.Valid()
      modifies this`outbox, this`uploads, db
      ensures db.Valid()
      ensures !Admitted(old(uploads), userId, friend, rq) ==>
                Contents() == old(Contents()) && uploads == old(uploads)
                    && outbox == old(outbox) + Refusal(sess, userId, friend, rq)
      ensures Admitted(old(uploads), userId, friend, rq) ==>
                Carries(m, old(uploads), userId, rq, now, generated)
      ensures Admitted(old(uploads), userId, friend, rq) ==>
                var before := old(Contents());
                var ok := begun && (Has(before.t.log, m.msgId) || stored);
                var target := D.Get(before.online, before.expired, m.receiver);
                && Contents() == D.RunFrom(before, [D.ChatLookup(0, m), D.ChatSave(0, ok), D.ChatForward(0)])
                && uploads == (if ok && IsMedia(rq.kind) then old(uploads) - {rq.fileId} else old(uploads))
                && outbox == old(outbox) + (if ok then ChatFrames(sess, m, Save(before.t, m, target.Some?).1, target)
                                            else [(sess, ChatRs(rq.receiver, rq.msgId, 0, ServerError))])
                && (ok && !Has(before.t.log, m.msgId) ==> Keeps(before.t, m, target.Some?, Contents().t))
    {
      hide Keeps, Save, HandedOf, Has, D.RunFrom, ConversationOf, D.Get;
      m := Message("", 0, 0, Body(0, "", "", 0, 0, "", 0, "", ""), 0);
      if userId <= 0 {
        return;
      }
      if !friend {
        Deliver(sess, ChatRs(rq.receiver, rq.msgId, 0, NotFriend));
        return;
      }
      var mediaPath, fileSize, contentType, sha256 := "", 0, rq.contentType, rq.sha256;
      if IsMedia(rq.kind) {
        if rq.fileId !in uploads || uploads[rq.fileId].uploader != userId
            || uploads[rq.fileId].receiver != rq.receiver {
          Deliver(sess, ChatRs(rq.receiver, rq.msgId, 0, FileNotOwned));
          return;
        }
        var record := uploads[rq.fileId];
        mediaPath, fileSize := record.mediaPath, record.size;
        contentType, sha256 := record.contentType, record.sha256;
      }
      var code := match rq.kind case TextKind => 0 case ImageKind => 1 case FileKind => 2;
      var message := Message(if rq.msgId == "" then generated else rq.msgId, userId, rq.receiver,
                             Body(code, if rq.kind.FileKind? then rq.fileName else rq.msg, mediaPath, rq.width,
                                  rq.height, rq.fileId, fileSize, contentType, sha256), now);
      m := message;
      Forward(sess, rq, message, begun, stored);
    }

    /** The second half of onChat: lookup, save, and the frames. */
    method Forward(sess: Sess, rq: ChatRequest, m: Message, begun: bool, stored: bool)
      requires db.Valid() && m.receiver == rq.receiver
      modifies this`outbox, this`uploads, db
      ensures db.Valid()
      ensures var before := old(Contents());
              var ok := begun && (Has(before.t.log, m.msgId) || stored);
              var target := D.Get(before.online, before.expired, m.receiver);
              && Contents() == D.RunFrom(before, [D.ChatLookup(0, m), D.ChatSave(0, ok), D.ChatForward(0)])
              && uploads == (if ok && IsMedia(rq.kind) then old(uploads) - {rq.fileId} else old(uploads))
              && outbox == old(outbox) + (if ok then ChatFrames(sess, m, Save(before.t, m, target.Some?).1, target)
                                          else [(sess, ChatRs(rq.receiver, rq.msgId, 0, ServerError))])
              && (ok && !Has(before.t.log, m.msgId) ==> Keeps(before.t, m, target.Some?, Contents().t))
    {
      hide Keeps, Save, HandedOf, Has, D.RunFrom, ConversationOf, D.Get;
      var target := presence.Lookup(m.receiver);
      ghost var ok := begun && (Has(db.Contents().log, m.msgId) || stored);
      ChatRun(Contents(), m, ok);
      KeepsNew(db.Contents(), m, target.Some?);
      var saved, number := db.SaveMessage(m, target.Some?, begun, stored);
      if !saved {
        Deliver(sess, ChatRs(rq.receiver, rq.msgId, 0, ServerError));
        return;
      }
      if IsMedia(rq.kind) {
        uploads := uploads - {rq.fileId};
      }
      if target.Some? {
        Deliver(target.value, ChatRq(m, number));
        Deliver(sess, ChatRs(m.receiver, m.msgId, number, Succ));
      } else {
        Deliver(sess, ChatRs(m.receiver, m.msgId, number, Fail));
      }
    }

    method SendFriendInfo(to: Sess, user: int, online: bool, known: set<int>)
      modifies this`outbox
      ensures outbox == old(outbox) + Info(to, user, online, known) && HandedOf(outbox) == HandedOf(old(outbox))
    {
      hide HandedOf;
      if user in known {
        Deliver(to, FriendInfo(user, online));
      }
    }

    /** What a login tells its own session and its friends. */
    method Greet(sess: Sess, userId: int, friends: seq<int>, known: set<int>)
      modifies this`outbox
      ensures outbox == old(outbox) + Greetings(sess, userId, friends, known, presence.online, presence.expired)
      ensures HandedOf(outbox) == HandedOf(old(outbox))
    {
      hide HandedOf, D.Get, Info;
      SendFriendInfo(sess, userId, true, known);
      var i := 0;
      assert friends[..0] == [];
      while i < |friends|
        invariant 0 <= i <= |friends|
        invariant outbox == old(outbox) + Greetings(sess, userId, friends[..i], known, presence.online,
                  presence.expired)
        invariant HandedOf(outbox) == HandedOf(old(outbox))
      {
        assert friends[..i + 1][..i] == friends[..i];
        var there := presence.Lookup(friends[i]);
        SendFriendInfo(sess, friends[i], there.Some?, known);
        if there.Some? {
          SendFriendInfo(there.value, userId, true, known);
        }
        i := i + 1;
      }
      assert friends[..i] == friends;
    }

    /** The loop of activateSession. */
    method HandOver(sess: Sess, userId: int, undelivered: seq<Stored>, ghost before: D.State)
        returns (deliveredIds: seq<string>)
      requires D.RunFrom(before, LoginEvents(0, userId, sess, 0)) == During(Contents(), userId, sess, undelivered, [])
      modifies this`outbox
      ensures outbox == old(outbox) + Handover(sess, userId, undelivered, presence.online, presence.expired)
      ensures D.RunFrom(before, LoginEvents(0, userId, sess, |undelivered|))
              == During(Contents(), userId, sess, [], deliveredIds)
    {
      hide HandedOf, D.RunFrom, LoginEvents, D.Get, Handover;
      deliveredIds := [];
      var i := 0;
      HandoverNone(sess, userId, presence.online, presence.expired);
      assert undelivered[..0] == [] && undelivered[0..] == undelivered;
      while i < |undelivered|
        invariant 0 <= i <= |undelivered|
        invariant D.RunFrom(before, LoginEvents(0, userId, sess, i))
                  == During(Contents(), userId, sess, undelivered[i..], deliveredIds)
        invariant outbox == old(outbox) + Handover(sess, userId, undelivered[..i], presence.online, presence.expired)
      {
        var row := undelivered[i];
        OneMoreDelivered(before, Contents(), userId, sess, i, undelivered[i..], deliveredIds);
        HandoverOne(sess, userId, undelivered[..i], row, presence.online, presence.expired);
        assert undelivered[..i + 1] == undelivered[..i] + [row];
        assert undelivered[i..][1..] == undelivered[i + 1..];
        Deliver(sess, ChatRq(row.m, row.number));
        deliveredIds := deliveredIds + [row.m.msgId];
        var sender := presence.Lookup(row.m.sender);
        if sender.Some? {
          Deliver(sender.value, ChatRs(userId, row.m.msgId, row.number, Succ));
        }
        i := i + 1;
      }
      assert undelivered[..i] == undelivered && undelivered[i..] == [];
    }

    /** activateSession: the older connection is told and closed, friends are told, everything
        unmarked is handed over, and then marked. */
    method ActivateSession(sess: Sess, userId: int, friends: seq<int>, known: set<int>)
      requires db.Valid()
      modifies this, presence, db
      ensures db.Valid() && uploads == old(uploads)
      ensures var before := old(Contents());
              var was, rows := D.Get(before.online, before.expired, userId), Pull(before.t, userId);
              var kicked := was.Some? && was.value != sess;
              && outbox == old(outbox) + (if kicked then [(was.value, KickedOffline)] else [])
                           + Greetings(sess, userId, friends, known, presence.online, presence.expired)
                           + Handover(sess, userId, rows, presence.online, presence.expired)
              && closing == old(closing) + (if kicked then {was.value} else {})
              && Contents() == D.RunFrom(before, LoginEvents(0, userId, sess, |rows|) + [D.LoginMark(0)])
    {
      ghost var before := Contents();
      hide HandedOf, Pull, Mark, D.RunFrom, LoginEvents, D.Get, Handover, Greetings;
      var was := presence.Replace(userId, sess);
      ever := ever + {(userId, sess)};
      if was.Some? && was.value != sess {
        Deliver(was.value, KickedOffline);
        closing := closing + {was.value};
      }
      Greet(sess, userId, friends, known);
      var undelivered := db.PullUndelivered(userId);
      Opening(before, userId, sess);
      var deliveredIds := HandOver(sess, userId, undelivered, before);
      Closed(before, Contents(), userId, sess, |undelivered|, deliveredIds);
      db.MarkDelivered(deliveredIds);
    }
  }

  /** What a login tells: the session learns of itself and whether each of its friends is online,
      and every friend who is online learns that the user is. */
  lemma {:induction false} FriendsLearn(sess: Sess, user: int, friends: seq<int>, known: set<int>,
                                        online: map<int, Sess>, expired: set<Sess>, f: int)
    requires f in friends
    ensures var told := Greetings(sess, user, friends, known, online, expired);
            && (user in known ==> (sess, FriendInfo(user, true)) in told)
            && (f in known ==> (sess, FriendInfo(f, f in online && online[f] !in expired)) in told)
            && (user in known && f in online && online[f] !in expired ==> (online[f], FriendInfo(user, true)) in told)
  {
    var n := |friends| - 1;
    if n > 0 && f in friends[..n] {
      FriendsLearn(sess, user, friends[..n], known, online, expired, f);
    } else {
      assert f == friends[n];
      OwnInfo(sess, user, friends[..n], known, online, expired);
    }
  }

  lemma {:induction false} OwnInfo(sess: Sess, user: int, friends: seq<int>, known: set<int>,
                                   online: map<int, Sess>, expired: set<Sess>)
    ensures user in known ==> (sess, FriendInfo(user, true)) in Greetings(sess, user, friends, known, online, expired)
  {
    if |friends| > 0 {
      OwnInfo(sess, user, friends[..|friends| - 1], known, online, expired);
    }
  }

  /** What a login is handed: each message under its number, and its sender, if online, a receipt. */
  lemma {:induction false} EachIsHandedOver(sess: Sess, user: int, rows: seq<Stored>, online: map<int, Sess>,
                                            expired: set<Sess>, k: nat)
    requires k < |rows|
    ensures var (out, row) := (Handover(sess, user, rows, online, expired), rows[k]);
            && (sess, ChatRq(row.m, row.number)) in out
            && (row.m.sender in online && online[row.m.sender] !in expired ==>
                  (online[row.m.sender], ChatRs(user, row.m.msgId, row.number, Succ)) in out)
  {
    if k < |rows| - 1 {
      EachIsHandedOver(sess, user, rows[..|rows| - 1], online, expired, k);
    }
  }

  lemma HandoverNone(sess: Sess, user: int, online: map<int, Sess>, expired: set<Sess>)
    ensures Handover(sess, user, [], online, expired) == []
  {
  }

  lemma HandoverOne(sess: Sess, user: int, rows: seq<Stored>, row: Stored, online: map<int, Sess>, expired: set<Sess>)
    ensures var sender := D.Get(online, expired, row.m.sender);
            Handover(sess, user, rows + [row], online, expired)
            == Handover(sess, user, rows, online, expired) + [(sess, ChatRq(row.m, row.number))]
               + (if sender.Some? then [(sender.value, ChatRs(user, row.m.msgId, row.number, Succ))] else [])
  {
    assert (rows + [row])[..|rows|] == rows;
  }

  /** The three actions of a chat handler, uninterrupted. */
  lemma ChatRun(s: D.State, m: Message, ok: bool)
    requires s.chats == map[]
    ensures var target := D.Get(s.online, s.expired, m.receiver);
            D.RunFrom(s, [D.ChatLookup(0, m), D.ChatSave(0, ok), D.ChatForward(0)])
            == if !ok then s
               else s.(t := Save(s.t, m, target.Some?).0,
                       handed := if target.Some? then s.handed + {(target.value, m.msgId)} else s.handed)
  {
    hide Save;
    var e, f, g := D.ChatLookup(0, m), D.ChatSave(0, ok), D.ChatForward(0);
    assert [e, f, g][..2] == [e, f] && [e, f][..1] == [e] && [e][..0] == [];
    assert D.RunFrom(s, []) == s;
    assert D.RunFrom(s, [e]) == D.Step(s, e);
    assert D.RunFrom(s, [e, f]) == D.Step(D.Step(s, e), f);
    var s3 := D.Step(D.Step(D.Step(s, e), f), g);
    assert s3.chats == map[];
  }

  /** The login's state in the state machine while it hands over. */
  function During(s: D.State, user: int, sess: Sess, left: seq<Stored>, ids: seq<string>): D.State {
    s.(logins := map[0 := D.Handing(user, sess, left, ids)])
  }

  lemma Opening(s: D.State, user: int, sess: Sess)
    requires s.logins == map[]
    ensures D.RunFrom(s, LoginEvents(0, user, sess, 0))
            == During(s.(online := s.online[user := sess], ever := s.ever + {(user, sess)}), user, sess,
                Pull(s.t, user), [])
  {
    hide Pull;
    var a, b := D.LoginReplace(0, user, sess), D.LoginPull(0);
    assert LoginEvents(0, user, sess, 0) == [a, b];
    assert [a, b][..1] == [a] && [a][..0] == [];
    assert D.RunFrom(s, []) == s;
    assert D.RunFrom(s, [a]) == D.Step(s, a);
    var l := D.Step(D.Step(s, a), b).logins;
    assert l == map[0 := D.Handing(user, sess, Pull(s.t, user), [])];
  }

  lemma OneMoreDelivered(before: D.State, s: D.State, user: int, sess: Sess, n: nat, left: seq<Stored>,
      ids: seq<string>)
    requires D.RunFrom(before, LoginEvents(0, user, sess, n)) == During(s, user, sess, left, ids) && |left| > 0
    ensures D.RunFrom(before, LoginEvents(0, user, sess, n + 1))
            == During(s.(handed := s.handed + {(sess, left[0].m.msgId)}), user, sess, left[1..],
                ids + [left[0].m.msgId])
  {
    hide D.Step, During;
    var all := LoginEvents(0, user, sess, n + 1);
    assert all[..|all| - 1] == LoginEvents(0, user, sess, n) && all[|all| - 1] == D.LoginDeliver(0);
    assert D.RunFrom(before, all) == D.Step(D.RunFrom(before, all[..|all| - 1]), all[|all| - 1]);
    hide D.RunFrom, LoginEvents;
    OneDelivered(s, user, sess, left, ids);
  }

  lemma OneDelivered(s: D.State, user: int, sess: Sess, left: seq<Stored>, ids: seq<string>)
    requires |left| > 0
    ensures D.Step(During(s, user, sess, left, ids), D.LoginDeliver(0))
            == During(s.(handed := s.handed + {(sess, left[0].m.msgId)}), user, sess, left[1..],
                ids + [left[0].m.msgId])
  {
    var l := D.Step(During(s, user, sess, left, ids), D.LoginDeliver(0)).logins;
    assert l == map[0 := D.Handing(user, sess, left[1..], ids + [left[0].m.msgId])];
  }

  lemma Closed(before: D.State, s: D.State, user: int, sess: Sess, n: nat, ids: seq<string>)
    requires D.RunFrom(before, LoginEvents(0, user, sess, n)) == During(s, user, sess, [], ids)
    ensures D.RunFrom(before, LoginEvents(0, user, sess, n) + [D.LoginMark(0)])
            == s.(t := Mark(s.t, ids), logins := map[])
  {
    hide Mark;
    var all := LoginEvents(0, user, sess, n);
    assert (all + [D.LoginMark(0)])[..|all|] == all;
    var l := D.Step(During(s, user, sess, [], ids), D.LoginMark(0)).logins;
    assert l == map[];
  }
}
