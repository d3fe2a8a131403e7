/** The message cache of a stream, and how an IMAP stream keeps and uses its map
    of UIDs. */
module MessageCache {
  import opened Sequences
  import opened Messages
  import opened Mailboxes

  const CACHEINCREMENT: nat := 250

  /** A cache element. */
  class Elt {
    var msgno: nat
    var uid: nat
    var sequence: bool
    var valid: bool
    var deleted: bool
    var recent: bool

    constructor (msgno: nat)
      ensures this.msgno == msgno && uid == 0 && !sequence && !valid && !deleted && !recent
    {
      this.msgno, uid := msgno, 0;
      sequence, valid, deleted, recent := false, false, false, false;
    }
  }

  /** A stream: its message cache and what it remembers of UIDs. The size of the
      cache is the length of the array. */
  class Stream {
    var cache: array<Elt?>
    var nmsgs: nat
    var uidValidity: nat
    var lastUid: nat
    var lastMsgno: nat
    ghost var elts: set<Elt>

    /** Slot k is empty or holds the element of message k + 1, and the slots past
        the messages are empty. */
    ghost predicate Valid()
      reads this, cache, elts
    {
      && nmsgs <= cache.Length && nmsgs <= MAXMESSAGES
      && (lastUid > 0 ==> lastMsgno > 0)
      && (forall k {:trigger cache[k]} | 0 <= k < cache.Length && cache[k] != null ::
            k < nmsgs && cache[k] in elts && cache[k].msgno == k + 1)
    }

    /** What the cache knows of the UID of the message in a slot. */
    ghost function Known(k: nat): nat
      requires k < cache.Length
      reads this, cache, elts
      requires Valid()
    {
      if cache[k] == null then 0 else cache[k].uid
    }

    ghost function State(): (c: Client)
      reads this, cache, elts
      requires Valid()
      ensures |c.known| == nmsgs && forall k | 0 <= k < nmsgs :: c.known[k] == Known(k)
      ensures c.validity == uidValidity && c.lastUid == lastUid && c.lastMsgno == lastMsgno
    {
      var known := seq(nmsgs, k requires 0 <= k < nmsgs reads this, cache, elts requires Valid() => Known(k));
      Client(known, uidValidity, lastUid, lastMsgno)
    }

    /** An open stream without messages. */
    constructor ()
      ensures Valid() && State() == Client([], 0, 0, 0) && fresh(cache) && elts == {}
    {
      cache := new Elt?[CACHEINCREMENT](_ => null);
      nmsgs, uidValidity, lastUid, lastMsgno, elts := 0, 0, 0, 0, {};
    }

    /** mm_cache CH_SIZE: makes room, and keeps what is there. */
    method Size(msgno: nat)
      requires Valid()
      modifies this`cache
      ensures Valid() && State() == old(State())
      ensures cache.Length >= msgno && (cache != old(cache) ==> fresh(cache))
    {
      if msgno > cache.Length {
        var i := cache.Length;
        var larger := new Elt?[msgno + CACHEINCREMENT];
        forall k | 0 <= k < i {
          larger[k] := cache[k];
        }
        while i < larger.Length
          invariant cache == old(cache) && cache.Length <= i <= larger.Length
          invariant forall k | 0 <= k < cache.Length :: larger[k] == cache[k]
          invariant forall k | cache.Length <= k < i :: larger[k] == null
        {
          larger[i] := null;
          i := i + 1;
        }
        cache := larger;
      }
    }

    /** mail_elt: the element of a message, made if need be. */
    method Element(msgno: nat) returns (elt: Elt)
      requires Valid() && 1 <= msgno <= nmsgs
      modifies this`elts, cache
      ensures Valid() && State() == old(State())
      ensures elt in elts && cache[msgno - 1] == elt && elt.uid == old(Known(msgno - 1))
      ensures elts - {elt} <= old(elts) <= elts && (elt in old(elts) || fresh(elt))
    {
      if cache[msgno - 1] == null {
        var made := new Elt(msgno);
        cache[msgno - 1] := made;
        elts := elts + {made};
      }
      elt := cache[msgno - 1];
    }

    /** mm_cache CH_EXPUNGE: the slots above move down and their elements are
        renumbered. */
    method Shift(msgno: nat)
      requires Valid() && 1 <= msgno <= nmsgs
      modifies cache, elts`msgno
      ensures forall k {:trigger cache[k]} | 0 <= k < cache.Length ::
          cache[k] == if k < msgno - 1 then old(cache[k]) else if k < nmsgs - 1 then old(cache[k + 1]) else null
      ensures forall k {:trigger cache[k]} | 0 <= k < cache.Length && cache[k] != null :: cache[k].msgno == k + 1
    {
      var i, m := msgno - 1, msgno;
      while m < nmsgs
        invariant i == m - 1 && msgno <= m <= nmsgs
        invariant forall k {:trigger cache[k]} | 0 <= k < i ::
          cache[k] == if k < msgno - 1 then old(cache[k]) else old(cache[k + 1])
        invariant forall k {:trigger cache[k]} | i < k < cache.Length :: cache[k] == old(cache[k])
        invariant forall k {:trigger cache[k]} | 0 <= k < cache.Length && k != i && cache[k] != null ::
          cache[k].msgno == k + 1
      {
        cache[i] := cache[m];
        if cache[i] != null {
          cache[i].msgno := m;
        }
        i, m := i + 1, m + 1;
      }
      cache[i] := null;
    }

    /** mail_exists, up to the callback. */
    method Exist(count: nat)
      requires Valid() && Least(count, MAXMESSAGES) >= nmsgs
      modifies this`cache, this`nmsgs
      ensures Valid() && cache.Length >= nmsgs && (cache != old(cache) ==> fresh(cache))
      ensures State() == old(State()).(known := old(State().known) + Zeros(Least(count, MAXMESSAGES) - old(nmsgs)))
    {
      var n := count;
      if n > MAXMESSAGES {
        n := MAXMESSAGES;
      }
      Size(n);
      nmsgs := n;
    }

    /** mail_expunged, up to the callback. */
    method Expunged(msgno: nat)
      requires Valid() && msgno > 0
      modifies this`nmsgs, cache, elts`msgno
      ensures Valid()
      ensures State() ==
        if msgno <= old(nmsgs) then old(State()).(known := Remove(old(State().known), msgno - 1)) else old(State())
    {
      hide State;
      if msgno <= nmsgs {
        Drop(msgno);
        Removed(old(State().known), msgno - 1, State().known);
      } else {
        assert State().known == old(State().known);
      }
    }

    /** Takes the element of a message out of the cache. */
    method Drop(msgno: nat)
      requires Valid() && 1 <= msgno <= nmsgs
      modifies this`nmsgs, cache, elts`msgno
      ensures Valid() && nmsgs == old(nmsgs) - 1
      ensures forall k | 0 <= k < nmsgs :: Known(k) == old(Known(Origin(msgno - 1, k)))
    {
      var elt := cache[msgno - 1];
      if elt != null {
        elt.msgno := 0;
        cache[msgno - 1] := null;
      }
      Shift(msgno);
      nmsgs := nmsgs - 1;
    }

    lemma Removed(before: seq<nat>, i: nat, after: seq<nat>)
      requires i < |before| == |after| + 1 && forall k | 0 <= k < |after| :: after[k] == before[Origin(i, k)]
      ensures after == Remove(before, i)
    {
    }

    /** A FETCH response, as far as UIDs go. */
    method Fetched(msgno: nat, uid: Option<nat>)
      requires Valid() && 1 <= msgno <= nmsgs
      modifies this`elts, this`lastUid, this`lastMsgno, cache, elts`uid
      ensures Valid() && State() == Heard(old(State()), Fetch(msgno, uid))
      ensures forall e <- elts :: e in old(elts) || fresh(e)
    {
      var elt := Element(msgno);
      if uid.Some? {
        lastUid, elt.uid := uid.value, uid.value;
        lastMsgno := elt.msgno;
        assert State().known == old(State().known)[msgno - 1 := uid.value];
      }
    }

    /** The UIDVALIDITY response code: another value voids the UIDs in the cache. */
    method Validity(value: nat)
      requires Valid()
      modifies this`uidValidity, elts`uid
      ensures Valid() && State() == Heard(old(State()), UidValidity(value))
    {
      if value != uidValidity {
        uidValidity := value;
        var j := 1;
        while j <= nmsgs
          invariant 1 <= j <= nmsgs + 1 && uidValidity == value
          invariant forall k {:trigger cache[k]} | 0 <= k < j - 1 && cache[k] != null :: cache[k].uid == 0
        {
          var elt := cache[j - 1];
          if elt != null {
            elt.uid := 0;
          }
          j := j + 1;
        }
        assert State().known == Zeros(|old(State()).known|);
      } else {
        assert State().known == old(State()).known;
      }
    }

    /** What the untagged responses do, with the guards of imap_parse_unsolicited. */
    method Handle(r: Response)
      requires Valid()
      modifies this, cache, elts
      ensures Valid() && State() == Heard(old(State()), r)
      ensures cache != old(cache) ==> fresh(cache)
      ensures forall e <- elts :: e in old(elts) || fresh(e)
    {
      match r
      case Exists(n) =>
        if n >= nmsgs { Exist(n); }
      case Expunge(m) =>
        if m > 0 && m <= nmsgs { Expunged(m); }
      case Fetch(m, uid) =>
        if m > 0 && m <= nmsgs { Fetched(m, uid); }
      case UidValidity(v) =>
        Validity(v);
    }

    /** A run of untagged responses. */
    method HandleAll(rs: seq<Response>)
      requires Valid()
      modifies this, cache, elts
      ensures Valid() && State() == HeardAll(old(State()), rs)
      ensures cache != old(cache) ==> fresh(cache)
      ensures forall e <- elts :: e in old(elts) || fresh(e)
    {
      hide Heard;
      for i := 0 to |rs|
        invariant Valid() && HeardAll(State(), rs[i..]) == HeardAll(old(State()), rs)
        invariant cache != old(cache) ==> fresh(cache)
        invariant forall e <- elts :: e in old(elts) || fresh(e)
      {
        assert rs[i..][0] == rs[i] && rs[i..][1..] == rs[i + 1..];
        Handle(rs[i]);
      }
    }

    /** The first message whose element has the UID. */
    method Scan(uid: nat) returns (msgno: nat)
      requires Valid()
      modifies this`elts, cache
      ensures Valid() && State() == old(State()) && msgno == IndexOf(State().known, uid)
      ensures forall e <- elts :: e in old(elts) || fresh(e)
    {
      hide State;
      ghost var c := State();
      for m := 1 to nmsgs + 1
        invariant Valid() && State() == c && uid !in c.known[..m - 1]
        invariant forall e <- elts :: e in old(elts) || fresh(e)
      {
        var elt := Element(m);
        assert c.known[..m] == c.known[..m - 1] + [elt.uid];
        if elt.uid == uid {
          FirstIndex(c.known, uid, m);
          return m;
        }
      }
      assert c.known[..nmsgs] == c.known;
      return 0;
    }

    /** The first search of imap_msgno; `holes` tells whether it met an unknown UID. */
    method FirstScan(uid: nat) returns (msgno: nat, holes: bool)
      requires Valid()
      modifies this`elts, cache
      ensures Valid() && State() == old(State())
      ensures forall e <- elts :: e in old(elts) || fresh(e)
      ensures msgno == if uid > 0 then IndexOf(State().known, uid) else 0
      ensures msgno == 0 ==> (holes <==> 0 in State().known)
    {
      hide State;
      holes := false;
      ghost var c := State();
      for m := 1 to nmsgs + 1
        invariant Valid() && State() == c
        invariant forall e <- elts :: e in old(elts) || fresh(e)
        invariant holes <==> 0 in c.known[..m - 1]
        invariant uid > 0 ==> uid !in c.known[..m - 1]
      {
        var elt := Element(m);
        assert c.known[..m] == c.known[..m - 1] + [elt.uid];
        if elt.uid == 0 {
          holes := true;
        } else if elt.uid == uid {
          FirstIndex(c.known, uid, m);
          return m, holes;
        }
      }
      assert c.known[..nmsgs] == c.known;
      msgno := 0;
    }

    /** The server hunts for the UID; `replies` are its responses. */
    method Hunt(uid: nat, replies: seq<Response>) returns (msgno: nat)
      requires Valid()
      modifies this, cache, elts
      ensures Valid() && (State(), msgno) == Hunting(old(State()), uid, replies)
      ensures cache != old(cache) ==> fresh(cache)
      ensures forall e <- elts :: e in old(elts) || fresh(e)
    {
      hide State, HeardAll, Reply;
      lastUid, lastMsgno := 0, 0;
      assert State().known == old(State().known);
      HandleAll(replies);
      msgno := Answer(uid);
    }

    /** What imap_msgno makes of the replies. */
    method Answer(uid: nat) returns (msgno: nat)
      requires Valid()
      modifies this`elts, cache
      ensures Valid() && State() == old(State()) && msgno == Reply(State(), uid)
      ensures forall e <- elts :: e in old(elts) || fresh(e)
    {
      hide State;
      msgno := 0;
      if lastUid != 0 {
        if lastUid == uid && lastMsgno <= nmsgs {
          var elt := Element(lastMsgno);
          if elt.uid == uid {
            return lastMsgno;
          }
        }
        msgno := Scan(uid);
      }
    }

    /** imap_msgno. The replies are what the server answers if it is asked. */
    method Msgno(uid: nat, replies: seq<Response>) returns (msgno: nat)
      requires Valid()
      modifies this, cache, elts
      ensures Valid() && (State(), msgno) == Sought(old(State()), uid, replies)
      ensures cache != old(cache) ==> fresh(cache)
      ensures forall e <- elts :: e in old(elts) || fresh(e)
    {
      hide State, Hunting;
      var holes;
      msgno, holes := FirstScan(uid);
      if msgno == 0 && holes {
        msgno := Hunt(uid, replies);
      }
    }
  }

  /** A session: over every story of true responses from an empty mailbox, the
      cache agrees with the mailbox, and a UID that is looked up then is found
      exactly if the mailbox has it, at its place. */
  method Session(rs: seq<Response>, uid: nat, replies: seq<Response>, ghost bs: seq<Mailbox>, ghost cs: seq<Mailbox>)
    returns (s: Stream, msgno: nat)
    requires Story(bs, rs) && bs[0].uids == [] && bs[0].validity == 0
    requires Story(cs, replies) && cs[0] == bs[|rs|] && uid > 0 && Hunted(cs[|replies|], replies, uid)
    ensures fresh(s) && s.Valid()
    ensures var b := Finally(HeardAll(Client([], 0, 0, 0), rs), uid, cs);
      && Agrees(s.State(), b)
      && (msgno == 0 <==> uid !in b.uids)
      && (msgno > 0 ==> msgno <= |b.uids| && b.uids[msgno - 1] == uid)
  {
    hide Stream.State, Sought, Hunted, Agrees, Finally;
    s := new Stream();
    ghost var c := s.State();
    assert Agrees(c, bs[0]) by { NoneKnown(bs[0]); }
    RunAgrees(c, bs, rs);
    SoughtIsRight(HeardAll(c, rs), uid, cs, replies);
    s.HandleAll(rs);
    msgno := s.Msgno(uid, replies);
  }

  lemma NoneKnown(b: Mailbox)
    requires b.uids == [] && b.validity == 0
    ensures Agrees(Client([], 0, 0, 0), b)
  {
  }
}
