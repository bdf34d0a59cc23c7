/** Exactly which sealed checkpoints are accepted: those that some lab exports, up to the order of
    the principals, the sessions and the retained sessions, which nothing checks. */
module LabAcceptance {
  import opened Wrappers
  import opened LabModel
  import opened LabInvariants
  import opened LabCheckpoint

  // ---------- Lists without repetition ----------

  lemma {:induction false} CountsOnce<T>(a: seq<T>, x: T)
    requires NoRepeats(a)
    ensures multiset(a)[x] == if x in a then 1 else 0
  {
    if a != [] {
      assert a == [a[0]] + a[1..];
      assert forall i :: 0 < i < |a| ==> a[1..][i - 1] == a[i] && a[i] != a[0];
      CountsOnce(a[1..], x);
    }
  }

  lemma CountTwice<T>(a: seq<T>, i: nat, j: nat)
    requires i < j < |a| && a[i] == a[j]
    ensures multiset(a)[a[i]] >= 2
  {
    assert a == a[..j] + [a[j]] + a[j + 1..];
    assert a[i] in a[..j];
  }

  /** Two lists without repetition are rearrangements of each other iff they have the same members. */
  lemma SameMembers<T>(a: seq<T>, b: seq<T>)
    requires NoRepeats(b)
    ensures multiset(a) == multiset(b) <==> NoRepeats(a) && forall x :: x in a <==> x in b
  {
    forall x { CountsOnce(b, x); }
    if multiset(a) == multiset(b) {
      forall i, j | 0 <= i < j < |a| ensures a[i] != a[j] {
        if a[i] == a[j] { CountTwice(a, i, j); }
      }
      forall x ensures x in a <==> x in b { assert x in a <==> x in multiset(a); }
    }
    if NoRepeats(a) && forall x :: x in a <==> x in b {
      forall x ensures multiset(a)[x] == multiset(b)[x] { CountsOnce(a, x); }
    }
  }

  // ---------- Principals ----------

  predicate DistinctPrincipals(entries: seq<PrincipalEntry>) {
    forall i, j :: 0 <= i < j < |entries| ==> entries[i].id != entries[j].id
  }

  predicate PrincipalIn(m: map<Principal, PrincipalRecord>, e: PrincipalEntry) {
    e.id in m && m[e.id] == PrincipalRecord(e.tenant, e.role)
  }

  ghost predicate PrincipalsGive(entries: seq<PrincipalEntry>, acc: map<Principal, PrincipalRecord>, m: map<Principal, PrincipalRecord>) {
    && DistinctPrincipals(entries) && (forall e :: e in entries ==> e.id !in acc && PrincipalIn(m, e))
    && (forall p :: p in acc ==> p in m && m[p] == acc[p])
    && forall p :: p in m ==> p in acc || exists e :: e in entries && e.id == p
  }

  lemma DistinctPrincipalsStep(entries: seq<PrincipalEntry>)
    requires entries != []
    ensures DistinctPrincipals(entries) <==> DistinctPrincipals(entries[1..]) && forall e :: e in entries[1..] ==> e.id != entries[0].id
    ensures forall e :: e in entries <==> e == entries[0] || e in entries[1..]
  {
    assert entries == [entries[0]] + entries[1..];
    assert forall i :: 0 < i < |entries| ==> entries[1..][i - 1] == entries[i];
  }

  lemma PrincipalsGiveRest(entries: seq<PrincipalEntry>, acc: map<Principal, PrincipalRecord>, m: map<Principal, PrincipalRecord>)
    requires entries != [] && PrincipalsGive(entries, acc, m)
    ensures entries[0].id !in acc
    ensures PrincipalsGive(entries[1..], acc[entries[0].id := PrincipalRecord(entries[0].tenant, entries[0].role)], m)
  {
    DistinctPrincipalsStep(entries);
    hide DistinctPrincipals;
    assert entries[0] in entries && PrincipalIn(m, entries[0]);
  }

  lemma PrincipalsGiveMore(entries: seq<PrincipalEntry>, acc: map<Principal, PrincipalRecord>, m: map<Principal, PrincipalRecord>)
    requires entries != [] && entries[0].id !in acc
    requires PrincipalsGive(entries[1..], acc[entries[0].id := PrincipalRecord(entries[0].tenant, entries[0].role)], m)
    ensures PrincipalsGive(entries, acc, m)
  {
    DistinctPrincipalsStep(entries);
    hide DistinctPrincipals;
    var head := entries[0];
    assert head in entries && PrincipalIn(m, head);
  }

  /** Reading succeeds exactly on distinct ids, and adds exactly the entries. */
  lemma {:induction false} PrincipalsRead(entries: seq<PrincipalEntry>, acc: map<Principal, PrincipalRecord>, m: map<Principal, PrincipalRecord>)
    ensures ReadPrincipals(entries, acc) == Some(m) <==> PrincipalsGive(entries, acc, m)
  {
    if entries == [] {
      assert (m == acc) <==> ((forall p :: p in acc ==> p in m && m[p] == acc[p]) && forall p :: p in m ==> p in acc);
    } else {
      var next := acc[entries[0].id := PrincipalRecord(entries[0].tenant, entries[0].role)];
      PrincipalsRead(entries[1..], next, m);
      if PrincipalsGive(entries, acc, m) { PrincipalsGiveRest(entries, acc, m); }
      if entries[0].id !in acc && PrincipalsGive(entries[1..], next, m) { PrincipalsGiveMore(entries, acc, m); }
      hide PrincipalsGive;
    }
  }

  lemma {:induction false} PrincipalsSorted(order: seq<Principal>, m: map<Principal, PrincipalRecord>)
    requires NoRepeats(order)
    ensures NoRepeats(SortedPrincipals(order, m))
    ensures forall e :: e in SortedPrincipals(order, m) <==> e.id in order && PrincipalIn(m, e)
  {
    if order != [] {
      assert order == [order[0]] + order[1..];
      assert order[0] !in order[1..] by { assert forall i :: 0 < i < |order| ==> order[1..][i - 1] == order[i]; }
      PrincipalsSorted(order[1..], m);
    }
  }

  /** A list of principals is read as `m` iff it is a rearrangement of the one written for `m`. */
  lemma PrincipalsUpToOrder(entries: seq<PrincipalEntry>, m: map<Principal, PrincipalRecord>)
    ensures ReadPrincipals(entries, map[]) == Some(m) <==> multiset(entries) == multiset(SortedPrincipals(PRINCIPAL_ORDER, m))
  {
    hide ReadPrincipals, SortedPrincipals;
    var written := SortedPrincipals(PRINCIPAL_ORDER, m);
    OrdersAreComplete();
    PrincipalsSorted(PRINCIPAL_ORDER, m);
    PrincipalsRead(entries, map[], m);
    SameMembers(entries, written);
    if ReadPrincipals(entries, map[]) == Some(m) {
      forall e ensures e in entries <==> e in written {
        if PrincipalIn(m, e) {
          var f :| f in entries && f.id == e.id;
          assert f == e;
        }
      }
    }
    if multiset(entries) == multiset(written) {
      forall p | p in m ensures exists e :: e in entries && e.id == p {
        assert PrincipalIn(m, PrincipalEntry(p, m[p].tenant, m[p].role));
      }
    }
  }

  // ---------- Sessions ----------

  predicate DistinctSessions(entries: seq<SessionEntry>) {
    forall i, j :: 0 <= i < j < |entries| ==> entries[i].id != entries[j].id
  }

  predicate SessionIn(m: map<SessionId, Session>, e: SessionEntry) { e.id in m && m[e.id] == e.session }

  ghost predicate SessionsGive(entries: seq<SessionEntry>, acc: map<SessionId, Session>, m: map<SessionId, Session>) {
    && DistinctSessions(entries) && (forall e :: e in entries ==> e.id !in acc && SessionIn(m, e) && e.session.generation >= 1)
    && (forall p :: p in acc ==> p in m && m[p] == acc[p])
    && forall p :: p in m ==> p in acc || exists e :: e in entries && e.id == p
  }

  lemma DistinctSessionsStep(entries: seq<SessionEntry>)
    requires entries != []
    ensures DistinctSessions(entries) <==> DistinctSessions(entries[1..]) && forall e :: e in entries[1..] ==> e.id != entries[0].id
    ensures forall e :: e in entries <==> e == entries[0] || e in entries[1..]
  {
    assert entries == [entries[0]] + entries[1..];
    assert forall i :: 0 < i < |entries| ==> entries[1..][i - 1] == entries[i];
  }

  lemma SessionsGiveRest(entries: seq<SessionEntry>, acc: map<SessionId, Session>, m: map<SessionId, Session>)
    requires entries != [] && SessionsGive(entries, acc, m)
    ensures entries[0].id !in acc && entries[0].session.generation >= 1
    ensures SessionsGive(entries[1..], acc[entries[0].id := entries[0].session], m)
  {
    DistinctSessionsStep(entries);
    hide DistinctSessions;
    assert entries[0] in entries && SessionIn(m, entries[0]);
  }

  lemma SessionsGiveMore(entries: seq<SessionEntry>, acc: map<SessionId, Session>, m: map<SessionId, Session>)
    requires entries != [] && entries[0].id !in acc && entries[0].session.generation >= 1
    requires SessionsGive(entries[1..], acc[entries[0].id := entries[0].session], m)
    ensures SessionsGive(entries, acc, m)
  {
    DistinctSessionsStep(entries);
    hide DistinctSessions;
    var head := entries[0];
    assert head in entries && SessionIn(m, head);
  }

  lemma {:induction false} SessionsRead(entries: seq<SessionEntry>, acc: map<SessionId, Session>, m: map<SessionId, Session>)
    ensures ReadSessions(entries, acc) == Some(m) <==> SessionsGive(entries, acc, m)
  {
    if entries == [] {
      assert (m == acc) <==> ((forall p :: p in acc ==> p in m && m[p] == acc[p]) && forall p :: p in m ==> p in acc);
    } else {
      var next := acc[entries[0].id := entries[0].session];
      SessionsRead(entries[1..], next, m);
      if SessionsGive(entries, acc, m) { SessionsGiveRest(entries, acc, m); }
      if entries[0].id !in acc && entries[0].session.generation >= 1 && SessionsGive(entries[1..], next, m) { SessionsGiveMore(entries, acc, m); }
      hide SessionsGive;
    }
  }

  lemma {:induction false} SessionsSorted(order: seq<SessionId>, m: map<SessionId, Session>)
    requires NoRepeats(order)
    ensures NoRepeats(SortedSessions(order, m))
    ensures forall e :: e in SortedSessions(order, m) <==> e.id in order && SessionIn(m, e)
  {
    if order != [] {
      assert order == [order[0]] + order[1..];
      assert order[0] !in order[1..] by { assert forall i :: 0 < i < |order| ==> order[1..][i - 1] == order[i]; }
      SessionsSorted(order[1..], m);
    }
  }

  lemma SessionsUpToOrder(entries: seq<SessionEntry>, m: map<SessionId, Session>)
    ensures ReadSessions(entries, map[]) == Some(m) <==>
              && (forall id :: id in m ==> m[id].generation >= 1)
              && multiset(entries) == multiset(SortedSessions(SESSION_ORDER, m))
  {
    hide ReadSessions, SortedSessions;
    var written := SortedSessions(SESSION_ORDER, m);
    OrdersAreComplete();
    SessionsSorted(SESSION_ORDER, m);
    SessionsRead(entries, map[], m);
    SameMembers(entries, written);
    if ReadSessions(entries, map[]) == Some(m) {
      forall e ensures e in entries <==> e in written {
        if SessionIn(m, e) {
          var f :| f in entries && f.id == e.id;
          assert f == e;
        }
      }
      forall id | id in m ensures m[id].generation >= 1 {
        var e :| e in entries && e.id == id;
      }
    }
    if multiset(entries) == multiset(written) {
      forall p | p in m ensures exists e :: e in entries && e.id == p {
        assert SessionIn(m, SessionEntry(p, m[p]));
      }
    }
  }

  lemma RetainedUpToOrder(ids: seq<SessionId>, retained: set<SessionId>)
    ensures NoRepeats(ids) && IdSet(ids) == retained <==> multiset(ids) == multiset(SortedIds(SESSION_ORDER, retained))
  {
    OrdersAreComplete();
    SortedIdsAreExact(SESSION_ORDER, retained);
    SameMembers(ids, SortedIds(SESSION_ORDER, retained));
  }

  // ---------- Acceptance ----------

  /** The payload is the one written for `s`, but for the order of three lists. */
  ghost predicate WrittenUpToOrder(p: Payload, s: Lab)
    requires s.WellFormed()
  {
    var w := PayloadOf(s);
    && p == w.(principals := p.principals, sessions := p.sessions, retained := p.retained)
    && multiset(p.principals) == multiset(w.principals)
    && multiset(p.sessions) == multiset(w.sessions)
    && multiset(p.retained) == multiset(w.retained)
  }

  lemma RestoreIsUpToOrder(mode: Mode, p: Payload, s: Lab)
    ensures Restore(mode, p) == Some(s) <==> s.WellFormed() && Restorable(s) && s.mode == mode && WrittenUpToOrder(p, s)
  {
    hide ReadPrincipals, ReadSessions, SortedPrincipals, SortedSessions, SortedIds, Numbered, NoRepeats;
    PrincipalsUpToOrder(p.principals, s.principals);
    SessionsUpToOrder(p.sessions, s.sessions);
    RetainedUpToOrder(p.retained, s.retained);
    if Restore(mode, p) == Some(s) {
      RestoredIsRestorable(mode, p);
    }
    if s.WellFormed() && Restorable(s) && WrittenUpToOrder(p, s) {
      DisclosureRoundTrip(s);
    }
  }

  /** Acceptance, exactly, for every sealed checkpoint: it is accepted as the lab `s` iff `s` can be
      restored and exports a checkpoint with the same mode, generation and fingerprint, and with the
      same state but for the order of the principals, sessions and retained sessions. */
  lemma AcceptedUpToOrder(c: Checkpoint, s: Lab)
    requires Sealed(c)
    ensures FromCheckpoint(c) == Some(s) <==>
              && s.WellFormed() && Restorable(s) && Export(s).Some? && s.mode == c.mode
              && Export(s).value.generation == c.generation && Export(s).value.fingerprint == c.fingerprint
              && WrittenUpToOrder(c.state, s)
  {
    hide Restore, Restorable, WrittenUpToOrder, PayloadOf, ViewOf, Bounded;
    RestoreIsUpToOrder(c.mode, c.state, s);
  }

  // ---------- Size ----------

  /** The bounds on a payload: 256 entries in every list, 512 characters in every free text. */
  lemma BoundsMean(p: Payload)
    ensures Bounded(p) <==>
              && |p.principals| <= 256 && |p.sessions| <= 256 && |p.ownership| <= 256 && |p.retained| <= 256 && |p.evidence| <= 256
              && forall e :: e in p.evidence ==>
                   && (forall text :: e.kind == OtherType(text) ==> |text| <= 512)
                   && (forall text :: e.outcome == OtherOutcome(text) ==> |text| <= 512)
                   && (forall text :: e.resource == ResOther(text) ==> |text| <= 512)
                   && (forall n :: e.resource == ResSeconds(n) ==> 8 + DecimalLength(n) <= 512)
  {
    assert forall i :: 0 <= i < |p.evidence| ==> p.evidence[i] in p.evidence;
  }
}
