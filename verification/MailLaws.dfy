/** What each call of the message server does, told by its arguments and fields alone
    (src/agent_augury/core/server.py:209-286, 313-560). */
module MailLaws {
  import opened Tables
  import opened Inbox

  // ---- Names -----------------------------------------------------------------------------------------

  /** The five letters of "human", each in either case. */
  lemma HumanNames(id: Id)
    ensures IsHumanName(id) <==>
              && |id| == 5
              && (id[0] == 'h' || id[0] == 'H') && (id[1] == 'u' || id[1] == 'U') && (id[2] == 'm' || id[2] == 'M')
              && (id[3] == 'a' || id[3] == 'A') && (id[4] == 'n' || id[4] == 'N')
  {
    if |id| == 5 {
      assert "human"[0] == 'h' && "human"[1] == 'u' && "human"[2] == 'm' && "human"[3] == 'a' && "human"[4] == 'n';
    }
  }

  /** An agent's name is refused exactly when it is reserved or a person's; a new one gets an empty
      queue, a known one changes nothing. */
  lemma RegisterLaw(s: Server, id: Id)
    ensures var (s', ok) := Register(s, id);
            && (ok <==> !IsHumanName(id) && id !in s.humans)
            && s' == if ok && id !in s.agents then s.(agents := s.agents + {id}, inboxes := s.inboxes[id := []]) else s
  {}

  lemma RegisterHumanLaw(s: Server, id: Id)
    ensures var (s', ok) := RegisterHuman(s, id);
            && (ok <==> IsHumanName(id))
            && (!ok ==> s' == s)
            && (ok ==> s'.(humans := s.humans, inboxes := s.inboxes) == s && s'.humans == s.humans + {id}
                       && s'.inboxes == if id in s.inboxes then s.inboxes else s.inboxes[id := []])
  {}

  // ---- Sending ---------------------------------------------------------------------------------------

  /** One message was logged, with the next id and place, and put at the end of the queues of exactly
      `who`; everything else stays. */
  ghost predicate Posted(s: Server, s': Server, topic: Topic, author: Id, content: string, mentions: seq<Id>,
                         who: set<Id>)
  {
    && |s'.messages| == |s.messages| + 1 && s'.messages[..|s.messages|] == s.messages
    && var m := s'.messages[|s.messages|];
    && m.id == s.nextMessage && m.place == |s.messages| && m.topic == topic
    && m.author == author && m.content == content && m.mentions == mentions
    && (forall a :: a in m.delivered <==> a in who) && Distinct(m.delivered)
    && s'.index == s.index[m.id := m] && s'.nextMessage == s.nextMessage + 1
    && s'.agents == s.agents && s'.humans == s.humans && s'.threads == s.threads && s'.nextThread == s.nextThread
    && s'.inboxes.Keys == s.inboxes.Keys
    && (forall a :: a in s.inboxes ==> s'.inboxes[a] == s.inboxes[a] + if a in who then [s.nextMessage] else [])
  }

  lemma PostLaw(s: Server, topic: Topic, author: Id, content: string, mentions: seq<Id>, targets: seq<Id>, who: set<Id>)
    requires Distinct(targets) && forall a :: a in targets <==> a in who
    ensures var (s', r) := Post(s, topic, author, content, mentions, targets);
            r == Ok(s.nextMessage) && Posted(s, s', topic, author, content, mentions, who)
  {
    var s' := Post(s, topic, author, content, mentions, targets).0;
    PushAllKeys(s.inboxes, targets, s.nextMessage);
    forall a | a in s.inboxes ensures s'.inboxes[a] == s.inboxes[a] + if a in who then [s.nextMessage] else [] {
      PushAllAt(s.inboxes, targets, s.nextMessage, a);
    }
  }

  /** An agent sends to the participants it mentions and the people it mentions, or to all participants
      but itself. It is refused for an unknown thread, else for an unknown agent, else for one that is
      no participant, and then nothing changes. */
  lemma SendLaw(s: Server, t: nat, author: Id, content: string, mentions: seq<Id>)
    requires Sound(s)
    ensures var (s', r) := SendMessage(s, t, author, content, mentions);
            if t !in s.threads.at then (s', r) == (s, Err(NoThread))
            else if author !in s.agents then (s', r) == (s, Err(UnknownAuthor))
            else if author !in s.threads.at[t].participants then (s', r) == (s, Err(NotParticipant))
            else
              var all := set a | a in s.threads.at[t].participants;
              var who := if mentions == [] then all - {author}
                         else set a | a in mentions && (a in all || a in s.humans);
              r == Ok(s.nextMessage) && Posted(s, s', Thread_(t), author, content, mentions, who)
  {
    hide Sound, Post, Posted;
    if t in s.threads.at && author in s.agents && author in s.threads.at[t].participants {
      var participants := s.threads.at[t].participants;
      ParticipantsOwnQueues(s, t);
      TargetsAre(s, participants, author, mentions);
      var all := set a | a in participants;
      var who := if mentions == [] then all - {author} else set a | a in mentions && (a in all || a in s.humans);
      PostLaw(s, Thread_(t), author, content, mentions, Targets(s, participants, author, mentions), who);
    }
  }

  /** A person sends to the participants that are mentioned, or to all. */
  lemma HumanSendLaw(s: Server, t: nat, author: Id, content: string, mentions: seq<Id>)
    requires Sound(s)
    ensures var (s', r) := HumanSend(s, t, author, content, mentions);
            if t !in s.threads.at then (s', r) == (s, Err(NoThread))
            else if author !in s.humans then (s', r) == (s, Err(UnknownAuthor))
            else
              var who := set a | a in s.threads.at[t].participants && (mentions == [] || a in mentions);
              r == Ok(s.nextMessage) && Posted(s, s', Thread_(t), author, content, mentions, who)
  {
    hide Sound, Post, Posted;
    if t in s.threads.at && author in s.humans {
      var participants := s.threads.at[t].participants;
      ParticipantsOwnQueues(s, t);
      AmongDistinct(participants, mentions);
      PostLaw(s, Thread_(t), author, content, mentions, HumanTargets(participants, mentions),
              set a | a in participants && (mentions == [] || a in mentions));
    }
  }

  /** A notice goes to one queue, and is refused exactly when there is none. */
  lemma NoticeLaw(s: Server, agent: Id, author: Id, content: string)
    ensures var (s', r) := InjectNotice(s, agent, author, content);
            if agent in s.agents || agent in s.humans
            then r == Ok(s.nextMessage) && Posted(s, s', Notice, author, content, [agent], {agent})
            else (s', r) == (s, Err(NoInbox))
  {
    hide Post, Posted;
    PostLaw(s, Notice, author, content, [agent], [agent], {agent});
  }

  // ---- Threads -----------------------------------------------------------------------------------------

  /** The runtime widens a thread by exactly the participants it names, all of whom then have a queue,
      or is refused exactly when one that is new to the thread has a reserved name. */
  lemma WidenLaw(s: Server, name: string, participants: seq<Id>, t: nat)
    requires Sound(s) && t in s.threads.at && s.threads.at[t].name == name && Distinct(participants)
    ensures var (s', r) := CreateThread(s, name, participants, true);
            && (r.Err? <==> exists x :: x in participants && x !in s.threads.at[t].participants && IsHumanName(x))
            && (r.Err? ==> r == Err(ReservedName) && s'.threads == s.threads)
            && (r.Ok? ==>
                  && r == Ok(t) && s'.threads.at.Keys == s.threads.at.Keys && s'.threads.at[t].name == name
                  && (forall u :: u in s.threads.at && u != t ==> s'.threads.at[u] == s.threads.at[u])
                  && (forall a :: a in s'.threads.at[t].participants <==>
                        a in s.threads.at[t].participants || a in participants)
                  && (forall a :: a in participants && a !in s.threads.at[t].participants ==> a in s'.inboxes))
  {
    hide Sound, Register;
    ThreadOrder(s, t);
    ByNameIs(s.threads.order, s.threads.at, name, t);
    NamesUnique(s, ByName(s.threads.order, s.threads.at, name).value, t);
    var existing := s.threads.at[t].participants;
    var added := SortedSet(NotIn(participants, existing));
    SortedSetIs(NotIn(participants, existing));
    SortedSetIs(existing + participants);
    RegisterAllGrows(s, added);
    RefusedIff(s, added);
    SameThreads(s, RegisterAll(s, added).0);
    AgentsHaveQueues(RegisterAll(s, added).0);
  }

  /** A new thread takes the next number, comes last and leaves every other thread and all messages as
      they are. */
  lemma NewThreadLaw(s: Server, name: string, participants: seq<Id>, bootstrap: bool)
    requires Sound(s) && forall t :: t in s.threads.at ==> s.threads.at[t].name != name
    ensures var (s', r) := CreateThread(s, name, participants, bootstrap);
            && s'.messages == s.messages && s'.index == s.index && s'.nextMessage == s.nextMessage
            && s'.humans == s.humans && s.agents <= s'.agents
            && (r.Err? ==> s'.nextThread == s.nextThread && s'.threads == s.threads)
            && (r.Ok? ==>
                  && s'.nextThread == s.nextThread + 1 && s'.threads.order == s.threads.order + [s.nextThread]
                  && s'.threads.at == s.threads.at[s.nextThread := Thread(name, participants)]
                  && (forall a :: a in s'.agents <==> a in s.agents || a in participants))
  {
    hide Sound, Register;
    NewThread(s, name, participants, bootstrap);
    NextIsNew(s);
    ByNameIs(s.threads.order, s.threads.at, name, 0);
    RegisterAllGrows(s, participants);
    AgentsAre(s, participants);
    SameThreads(s, RegisterAll(s, participants).0);
    HumansStay(s, RegisterAll(s, participants).0);
  }

  lemma NextIsNew(s: Server)
    requires Sound(s)
    ensures s.nextThread !in s.threads.at
  {}

  lemma HumansStay(s: Server, s': Server)
    requires Grown(s, s')
    ensures s'.humans == s.humans && s'.nextMessage == s.nextMessage
  {}

  lemma {:induction false} AgentsAre(s: Server, ids: seq<Id>)
    requires Sound(s)
    ensures forall a :: a in RegisterAll(s, ids).0.agents ==> a in s.agents || a in ids
    decreases |ids|
  {
    hide Sound;
    if ids != [] {
      var front, last := ids[..|ids| - 1], ids[|ids| - 1];
      assert ids == front + [last];
      AgentsAre(s, front);
    }
  }

  lemma AgentsHaveQueues(s: Server)
    requires Sound(s)
    ensures forall a :: a in s.agents ==> a in s.inboxes
  {}

  lemma {:induction false} RefusedIff(s: Server, ids: seq<Id>)
    requires Sound(s)
    ensures RegisterAll(s, ids).1 <==> forall x :: x in ids ==> !IsHumanName(x)
    decreases |ids|
  {
    hide Sound;
    RegisterAllGrows(s, ids);
    if ids != [] {
      var front, last := ids[..|ids| - 1], ids[|ids| - 1];
      assert ids == front + [last];
      RefusedIff(s, front);
      RegisterAllGrows(s, front);
      var (s1, ok) := RegisterAll(s, front);
      if ok { RegisterGrows(s1, last); }
    }
  }

  // ---- Queues --------------------------------------------------------------------------------------------

  /** Reading saved ids keeps exactly the known ones, each as often as it was saved, and in order. */
  lemma {:induction false} KnownLaw(q: seq<nat>, index: map<nat, Message>, id: nat, k: nat)
    ensures multiset(Known(q, index))[id] == if id in index then multiset(q)[id] else 0
    ensures k <= |q| ==> Known(q[..k], index) <= Known(q, index)
    decreases |q|
  {
    if q != [] {
      var front, last := q[..|q| - 1], q[|q| - 1];
      assert q == front + [last];
      KnownLaw(front, index, id, k);
      if k <= |front| { assert front[..k] == q[..k]; } else { assert k <= |q| ==> q[..k] == q; }
    }
  }

  /** Draining empties one queue, restoring replaces the queues that are saved, and neither touches
      anything else. */
  lemma QueueLaw(s: Server, agent: Id, saved: map<Id, seq<nat>>, a: Id)
    requires a in s.inboxes
    ensures var (d, r) := (Emptied(s, agent), Restore(s, saved));
            && d == s.(inboxes := d.inboxes) && r == s.(inboxes := r.inboxes)
            && d.inboxes.Keys == s.inboxes.Keys && r.inboxes.Keys == s.inboxes.Keys
            && d.inboxes[a] == (if a == agent then [] else s.inboxes[a])
            && r.inboxes[a] == (if a in saved then Known(saved[a], s.index) else s.inboxes[a])
  {}
}
