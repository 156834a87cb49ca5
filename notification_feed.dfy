/** The notification list: the bounded push done on check-in, the
    mark-read map done on a click, and the unread count. */
module NotificationFeed {
  import opened FleetTypes

  /** The longest the list becomes through a push (the new entry plus `prev.slice(0, 4)`). */
  const FeedBound: nat := 5

  /** Number of entries with `read == false`. */
  function UnreadCount(ns: seq<Notification>): (n: nat)
    ensures n <= |ns|
    ensures n == 0 <==> forall i :: 0 <= i < |ns| ==> ns[i].read
  {
    if ns == [] then 0 else (if ns[0].read then 0 else 1) + UnreadCount(ns[1..])
  }

  /** Number of unread entries whose id is `id`. */
  function UnreadWithId(ns: seq<Notification>, id: int): (n: nat)
    ensures n <= UnreadCount(ns)
  {
    if ns == [] then 0 else (if !ns[0].read && ns[0].id == id then 1 else 0) + UnreadWithId(ns[1..], id)
  }

  /** At most the first `k` elements of `s`, as JavaScript's `slice(0, k)`. */
  function Take<T>(s: seq<T>, k: nat): (r: seq<T>)
    ensures |r| == if |s| <= k then |s| else k
    ensures forall i :: 0 <= i < |r| ==> r[i] == s[i]
  {
    if |s| <= k then s else s[..k]
  }

  /** The new entry in front of the first four old ones. */
  function Push(ns: seq<Notification>, n: Notification): (r: seq<Notification>)
    ensures |r| == if |ns| + 1 <= FeedBound then |ns| + 1 else FeedBound
    ensures r[0] == n
    ensures forall i :: 1 <= i < |r| ==> r[i] == ns[i - 1]
  {
    [n] + Take(ns, FeedBound - 1)
  }

  /** `read` set on every entry with id `id`; nothing else changes. */
  function MarkRead(ns: seq<Notification>, id: int): (r: seq<Notification>)
    ensures |r| == |ns|
    ensures forall i :: 0 <= i < |ns| ==> r[i].read == (ns[i].read || ns[i].id == id)
    ensures forall i :: 0 <= i < |ns| ==> r[i].(read := ns[i].read) == ns[i]
  {
    if ns == [] then []
    else
      var rest := MarkRead(ns[1..], id);
      [if ns[0].id == id then ns[0].(read := true) else ns[0]] + rest
  }

  lemma {:induction false} UnreadCountAppend(a: seq<Notification>, b: seq<Notification>)
    ensures UnreadCount(a + b) == UnreadCount(a) + UnreadCount(b)
  {
    if a != [] {
      assert (a + b)[1..] == a[1..] + b;
      UnreadCountAppend(a[1..], b);
    } else {
      assert a + b == b;
    }
  }

  /** A push never lowers the unread count of a feed within its bound,
      and raises it by one while the feed is below the bound. */
  lemma PushUnread(ns: seq<Notification>, n: Notification)
    requires |ns| <= FeedBound
    requires !n.read
    ensures UnreadCount(Push(ns, n)) >= UnreadCount(ns)
    ensures |ns| < FeedBound ==> UnreadCount(Push(ns, n)) == UnreadCount(ns) + 1
  {
    var kept := Take(ns, FeedBound - 1);
    assert Push(ns, n) == [n] + kept;
    UnreadCountAppend([n], kept);
    assert UnreadCount(Push(ns, n)) == 1 + UnreadCount(kept);
    if |ns| == FeedBound {
      var dropped := ns[FeedBound - 1..];
      assert ns == kept + dropped && |dropped| == 1;
      UnreadCountAppend(kept, dropped);
    } else {
      assert kept == ns;
    }
  }

  /** Pushes `news[0]`, then `news[1]`, and so on. */
  function PushAll(ns: seq<Notification>, news: seq<Notification>): seq<Notification>
    decreases |news|
  {
    if news == [] then ns else PushAll(Push(ns, news[0]), news[1..])
  }

  function Reversed<T>(s: seq<T>): (r: seq<T>)
    ensures |r| == |s|
  {
    if s == [] then [] else Reversed(s[1..]) + [s[0]]
  }

  lemma TakeOfTake<T>(a: seq<T>, b: seq<T>, k: nat)
    ensures Take(a + Take(b, k), k) == Take(a + b, k)
  {
    var l := Take(a + Take(b, k), k);
    var r := Take(a + b, k);
    assert |l| == |r|;
    forall i | 0 <= i < |l| ensures l[i] == r[i] {
      if i >= |a| {
        assert l[i] == Take(b, k)[i - |a|];
      }
    }
  }

  /** After any number of pushes onto a feed within the bound, the feed
      holds the five most recently pushed entries (fewer if fewer were
      ever there), most recent first. */
  lemma {:induction false} PushAllKeepsMostRecent(ns: seq<Notification>, news: seq<Notification>)
    requires |ns| <= FeedBound
    ensures PushAll(ns, news) == Take(Reversed(news) + ns, FeedBound)
    ensures |PushAll(ns, news)| <= FeedBound
    decreases |news|
  {
    if news == [] {
      assert Reversed(news) + ns == ns;
    } else {
      var n := news[0];
      PushAllKeepsMostRecent(Push(ns, n), news[1..]);
      assert Push(ns, n) == Take([n] + ns, FeedBound);
      TakeOfTake(Reversed(news[1..]), [n] + ns, FeedBound);
      assert Reversed(news[1..]) + ([n] + ns) == Reversed(news) + ns;
    }
  }

  /** Marking twice is marking once. */
  lemma MarkReadIdempotent(ns: seq<Notification>, id: int)
    ensures MarkRead(MarkRead(ns, id), id) == MarkRead(ns, id)
  {
    var once := MarkRead(ns, id);
    var twice := MarkRead(once, id);
    forall i | 0 <= i < |ns| ensures twice[i] == once[i] {
      assert twice[i].(read := once[i].read) == once[i];
    }
  }

  /** An id no entry carries changes nothing. */
  lemma MarkReadUnknownId(ns: seq<Notification>, id: int)
    requires forall i :: 0 <= i < |ns| ==> ns[i].id != id
    ensures MarkRead(ns, id) == ns
  {
    var r := MarkRead(ns, id);
    forall i | 0 <= i < |ns| ensures r[i] == ns[i] {
      assert r[i].(read := ns[i].read) == ns[i];
    }
  }

  /** The unread count drops by exactly the number of unread entries with that id. */
  lemma {:induction false} MarkReadUnread(ns: seq<Notification>, id: int)
    ensures UnreadCount(MarkRead(ns, id)) == UnreadCount(ns) - UnreadWithId(ns, id)
  {
    if ns != [] {
      MarkReadUnread(ns[1..], id);
      assert MarkRead(ns, id)[1..] == MarkRead(ns[1..], id);
    }
  }
}
