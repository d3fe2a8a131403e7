/** What an IMAP client knows of the UIDs of a mailbox, and what the server
    promises about its untagged responses (RFC 3501, sections 2.3.1.1, 7.3.1, 7.4). */
module Mailboxes {
  import opened Sequences
  import opened Messages

  /** The largest number of messages in a mailbox. */
  const MAXMESSAGES: nat := 1000000

  /** Untagged responses; a FETCH response may come without a UID. */
  datatype Response =
    | Exists(count: nat)
    | Expunge(msgno: nat)
    | Fetch(msgno: nat, uid: Option<nat>)
    | UidValidity(value: nat)

  /** `known[k]` is the UID of message k + 1, or 0 if it has not been told. */
  datatype Client = Client(known: seq<nat>, validity: nat, lastUid: nat, lastMsgno: nat)

  function Zeros(n: nat): (s: seq<nat>)
    ensures |s| == n
  {
    seq(n, _ => 0)
  }

  function Least(a: nat, b: nat): nat {
    if a < b then a else b
  }

  /** The effect of one response, with the source's guards. */
  function Heard(c: Client, r: Response): Client {
    match r
    case Exists(n) =>
      if n >= |c.known| && Least(n, MAXMESSAGES) >= |c.known|
      then c.(known := c.known + Zeros(Least(n, MAXMESSAGES) - |c.known|)) else c
    case Expunge(m) =>
      if 0 < m <= |c.known| then c.(known := Remove(c.known, m - 1)) else c
    case Fetch(m, uid) =>
      if 0 < m <= |c.known| && uid.Some?
      then c.(known := c.known[m - 1 := uid.value], lastUid := uid.value, lastMsgno := m) else c
    case UidValidity(v) =>
      if v != c.validity then c.(known := Zeros(|c.known|), validity := v) else c
  }

  function HeardAll(c: Client, rs: seq<Response>): Client
    decreases rs
  {
    if rs == [] then c else HeardAll(Heard(c, rs[0]), rs[1..])
  }

  // ---- The server ----

  /** The mailbox as the server has told it: the UIDs, the UIDVALIDITY last
      announced and a bound on all the UIDs ever given out under it. */
  datatype Mailbox = Mailbox(uids: seq<nat>, validity: nat, next: nat) {
    ghost predicate Valid() {
      && |uids| <= MAXMESSAGES
      && (forall i | 0 <= i < |uids| :: 0 < uids[i] < next)
      && (forall i, j | 0 <= i < j < |uids| :: uids[i] < uids[j])
    }
  }

  /** The response is true of what happens to the mailbox. */
  ghost predicate Tells(b: Mailbox, r: Response, b': Mailbox) {
    && b.Valid() && b'.Valid()
    && match r
       case Exists(n) =>
         && n == |b'.uids| && |b.uids| <= n && b'.uids[..|b.uids|] == b.uids
         && b'.validity == b.validity && b'.next >= b.next
         && (forall i | |b.uids| <= i < n :: b'.uids[i] >= b.next)
       case Expunge(m) =>
         0 < m <= |b.uids| && b' == b.(uids := Remove(b.uids, m - 1))
       case Fetch(m, uid) =>
         b' == b && 0 < m <= |b.uids| && (uid.Some? ==> uid.value == b.uids[m - 1])
       case UidValidity(v) =>
         b'.validity == v && |b'.uids| == |b.uids| && (v == b.validity ==> b' == b)
  }

  /** A story: `bs` are the mailbox before, between and after the responses. */
  ghost predicate Story(bs: seq<Mailbox>, rs: seq<Response>) {
    && |bs| == |rs| + 1
    && bs[0].Valid()
    && forall i | 0 <= i < |rs| :: Tells(bs[i], rs[i], bs[i + 1])
  }

  /** What is known of the UIDs is right. */
  ghost predicate Agrees(c: Client, b: Mailbox) {
    && |c.known| == |b.uids| && c.validity == b.validity
    && forall k | 0 <= k < |c.known| :: c.known[k] == 0 || c.known[k] == b.uids[k]
  }

  /** One true response keeps what is known right. */
  lemma HeardAgrees(c: Client, b: Mailbox, r: Response, b': Mailbox)
    requires Agrees(c, b) && Tells(b, r, b')
    ensures Agrees(Heard(c, r), b')
  {
    var c' := Heard(c, r);
    if r.Exists? {
      forall k | 0 <= k < |c'.known|
        ensures c'.known[k] == 0 || c'.known[k] == b'.uids[k]
      {
        if k < |b.uids| {
          assert b'.uids[..|b.uids|][k] == b'.uids[k];
        }
      }
    }
  }

  /** Over every run of true responses what is known of the UIDs stays right. */
  lemma {:induction false} RunAgrees(c: Client, bs: seq<Mailbox>, rs: seq<Response>)
    requires Story(bs, rs) && Agrees(c, bs[0])
    ensures Agrees(HeardAll(c, rs), bs[|rs|])
    decreases rs
  {
    if rs != [] {
      HeardAgrees(c, bs[0], rs[0], bs[1]);
      RunRest(bs, rs);
      RunAgrees(Heard(c, rs[0]), bs[1..], rs[1..]);
    }
  }

  lemma RunRest(bs: seq<Mailbox>, rs: seq<Response>)
    requires Story(bs, rs) && rs != []
    ensures Story(bs[1..], rs[1..])
  {
    forall i | 0 <= i < |rs| - 1
      ensures Tells(bs[1..][i], rs[1..][i], bs[1..][i + 1])
    {
      assert Tells(bs[i + 1], rs[i + 1], bs[i + 2]);
    }
  }

  // ---- Looking for a UID ----

  /** The first message with the UID, or 0. */
  ghost function IndexOf(known: seq<nat>, uid: nat): (m: nat)
    ensures m <= |known| && (m > 0 ==> known[m - 1] == uid)
    ensures m == 0 <==> uid !in known
  {
    if known == [] then 0
    else if known[0] == uid then 1
    else if IndexOf(known[1..], uid) == 0 then 0 else 1 + IndexOf(known[1..], uid)
  }

  lemma {:induction false} FirstIndex(known: seq<nat>, uid: nat, m: nat)
    requires 0 < m <= |known| && known[m - 1] == uid && uid !in known[..m - 1]
    ensures IndexOf(known, uid) == m
  {
    if m > 1 {
      assert known[0] == known[..m - 1][0];
      assert known[..m - 1][1..] == known[1..][..m - 2];
      FirstIndex(known[1..], uid, m - 1);
    }
  }

  /** The server answers the hunt: if the UID is in the mailbox at the end, the
      replies have told it, and the UIDs are still the same. */
  ghost predicate Hunted(b: Mailbox, replies: seq<Response>, uid: nat) {
    uid in b.uids ==> exists i: nat, m: nat :: Told(replies, i, m, uid)
  }

  ghost predicate Told(replies: seq<Response>, i: nat, m: nat, uid: nat) {
    i < |replies| && replies[i] == Fetch(m, Some(uid)) && forall j | i < j < |replies| :: !replies[j].UidValidity?
  }

  /** A UID that has been in the mailbox is known if it is still in it. */
  ghost predicate Holds(c: Client, b: Mailbox, uid: nat) {
    uid < b.next && (uid in b.uids ==> uid in c.known)
  }

  lemma HeardHolds(c: Client, b: Mailbox, r: Response, b': Mailbox, uid: nat)
    requires Agrees(c, b) && Tells(b, r, b') && !r.UidValidity? && Holds(c, b, uid) && uid > 0
    ensures Holds(Heard(c, r), b', uid)
  {
    if uid in b'.uids {
      var k :| 0 <= k < |b'.uids| && b'.uids[k] == uid;
      if r.Expunge? {
        ExpungeHolds(c, b, r.msgno, b', uid, k);
      } else {
        assert b'.uids[..|b.uids|][k] == uid;
        KnownAt(c, b, k);
        assert Heard(c, r).known[k] == uid;
      }
    }
  }

  lemma ExpungeHolds(c: Client, b: Mailbox, m: nat, b': Mailbox, uid: nat, k: nat)
    requires Agrees(c, b) && Tells(b, Expunge(m), b') && Holds(c, b, uid) && k < |b'.uids| && b'.uids[k] == uid > 0
    ensures uid in Heard(c, Expunge(m)).known
  {
    var k' := if k < m - 1 then k else k + 1;
    assert b.uids[k'] == uid;
    KnownAt(c, b, k');
    assert Heard(c, Expunge(m)).known[k] == c.known[k'];
  }

  lemma KnownAt(c: Client, b: Mailbox, k: nat)
    requires Agrees(c, b) && b.Valid() && k < |b.uids| && b.uids[k] in c.known
    ensures c.known[k] == b.uids[k]
  {
    var i :| 0 <= i < |c.known| && c.known[i] == b.uids[k];
    assert b.uids[i] == b.uids[k];
  }

  lemma {:induction false} StillHolds(c: Client, bs: seq<Mailbox>, rs: seq<Response>, uid: nat)
    requires Story(bs, rs) && Agrees(c, bs[0]) && Holds(c, bs[0], uid) && uid > 0
    requires forall j | 0 <= j < |rs| :: !rs[j].UidValidity?
    ensures Holds(HeardAll(c, rs), bs[|rs|], uid)
    decreases rs
  {
    if rs != [] {
      HeardAgrees(c, bs[0], rs[0], bs[1]);
      HeardHolds(c, bs[0], rs[0], bs[1], uid);
      RunRest(bs, rs);
      StillHolds(Heard(c, rs[0]), bs[1..], rs[1..], uid);
    }
  }

  /** A UID told in a reply is known at the end if it is still in the mailbox. */
  lemma {:induction false} ToldIsKnown(c: Client, bs: seq<Mailbox>, rs: seq<Response>, i: nat, m: nat, uid: nat)
    requires Story(bs, rs) && Agrees(c, bs[0]) && Told(rs, i, m, uid)
    ensures uid in bs[|rs|].uids ==> uid in HeardAll(c, rs).known
    ensures uid > 0
    decreases rs
  {
    HeardAgrees(c, bs[0], rs[0], bs[1]);
    RunRest(bs, rs);
    if i == 0 {
      assert Tells(bs[0], rs[0], bs[1]);
      assert Heard(c, rs[0]).known[m - 1] == uid == bs[0].uids[m - 1];
      StillHolds(Heard(c, rs[0]), bs[1..], rs[1..], uid);
    } else {
      assert Told(rs[1..], i - 1, m, uid);
      ToldIsKnown(Heard(c, rs[0]), bs[1..], rs[1..], i - 1, m, uid);
    }
  }

  /** A nonzero UID was told, and no reply made one zero. */
  lemma {:induction false} ToldIsLast(c: Client, bs: seq<Mailbox>, rs: seq<Response>)
    requires Story(bs, rs) && Agrees(c, bs[0])
    requires c.lastUid > 0 || exists i: nat, m: nat, uid: nat :: Told(rs, i, m, uid)
    ensures HeardAll(c, rs).lastUid > 0
    decreases rs
  {
    if rs != [] {
      HeardAgrees(c, bs[0], rs[0], bs[1]);
      RunRest(bs, rs);
      if c.lastUid == 0 && Heard(c, rs[0]).lastUid == 0 {
        var i: nat, m: nat, uid: nat :| Told(rs, i, m, uid);
        if i == 0 {
          assert false;
        }
        assert Told(rs[1..], i - 1, m, uid);
      }
      ToldIsLast(Heard(c, rs[0]), bs[1..], rs[1..]);
    }
  }

  /** What imap_msgno does and answers, given what the server replies to its hunt. */
  ghost function Sought(c: Client, uid: nat, replies: seq<Response>): (Client, nat) {
    if uid > 0 && IndexOf(c.known, uid) > 0 then (c, IndexOf(c.known, uid))
    else if 0 in c.known then Hunting(c, uid, replies)
    else (c, 0)
  }

  ghost function Hunting(c: Client, uid: nat, replies: seq<Response>): (Client, nat) {
    var d := HeardAll(c.(lastUid := 0, lastMsgno := 0), replies);
    (d, Reply(d, uid))
  }

  ghost function Reply(d: Client, uid: nat): nat {
    if d.lastUid == 0 then 0
    else if d.lastUid == uid && 0 < d.lastMsgno <= |d.known| && d.known[d.lastMsgno - 1] == uid then d.lastMsgno
    else IndexOf(d.known, uid)
  }

  /** The mailbox at the end of a search for a UID. */
  ghost function Finally(c: Client, uid: nat, bs: seq<Mailbox>): Mailbox
    requires bs != []
  {
    if uid !in c.known && 0 in c.known then bs[|bs| - 1] else bs[0]
  }

  /** imap_msgno finds a UID exactly if it is in the mailbox, at its place there. */
  lemma SoughtIsRight(c: Client, uid: nat, bs: seq<Mailbox>, replies: seq<Response>)
    requires Story(bs, replies) && Agrees(c, bs[0]) && uid > 0 && Hunted(bs[|replies|], replies, uid)
    ensures var b, m := Finally(c, uid, bs), Sought(c, uid, replies).1;
      && Agrees(Sought(c, uid, replies).0, b)
      && (m == 0 <==> uid !in b.uids)
      && (m > 0 ==> m <= |b.uids| && b.uids[m - 1] == uid)
  {
    if uid !in c.known {
      if 0 in c.known {
        var c' := c.(lastUid := 0, lastMsgno := 0);
        RunAgrees(c', bs, replies);
        if uid in bs[|replies|].uids {
          var i: nat, m: nat :| Told(replies, i, m, uid);
          ToldIsKnown(c', bs, replies, i, m, uid);
          ToldIsLast(c', bs, replies);
        }
      } else {
        assert forall k | 0 <= k < |c.known| :: c.known[k] == bs[0].uids[k];
      }
    }
  }
}
