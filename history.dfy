/** The bounded per-room message list. The server stores it newest first
    (LPUSH, then LTRIM to indices 0..99) and hands it to clients oldest first
    (LRANGE 0 -1, then reversed). */
module History {
  import opened Redis

  /** How many messages a room's list keeps: indices 0 through 99. */
  const Capacity: nat := 100

  /** `s` back to front: the list order of LPUSH turned into send order. */
  function Reverse<T>(s: seq<T>): (r: seq<T>)
    ensures |r| == |s|
  {
    seq(|s|, i requires 0 <= i < |s| => s[|s| - 1 - i])
  }

  lemma ReverseReverse<T>(s: seq<T>)
    ensures Reverse(Reverse(s)) == s
  {
    assert forall k :: 0 <= k < |s| ==> Reverse(Reverse(s))[k] == s[k];
  }

  /** The newest entry of a send order is the head of its reversal. */
  lemma ReverseSnoc<T>(s: seq<T>, x: T)
    ensures Reverse(s + [x]) == [x] + Reverse(s)
  {
    assert forall k :: 0 <= k < |s| + 1 ==> Reverse(s + [x])[k] == ([x] + Reverse(s))[k];
  }

  /** The first `k` entries of a newest-first list are the `k` newest sends. */
  lemma ReversePrefix<T>(t: seq<T>, k: nat)
    requires k <= |t|
    ensures Reverse(t)[..k] == Reverse(t[|t| - k..])
  {
    var u := t[|t| - k..];
    assert forall i :: 0 <= i < k ==> Reverse(t)[..k][i] == Reverse(u)[i];
  }

  /** Reading a list back to front loses and invents nothing. */
  lemma {:induction false} ReverseSameElements<T>(s: seq<T>)
    ensures multiset(Reverse(s)) == multiset(s)
  {
    if s != [] {
      var t := s[1..];
      ReverseSameElements(t);
      assert s == [s[0]] + t;
      assert Reverse(s) == Reverse(t) + [s[0]] by {
        assert forall k :: 0 <= k < |s| ==> Reverse(s)[k] == (Reverse(t) + [s[0]])[k];
      }
    }
  }

  /** The last `n` entries of `sent` (all of them when there are fewer). */
  function Newest<T>(sent: seq<T>, n: nat): (r: seq<T>)
    ensures |r| == Min(|sent|, n)
  {
    if |sent| <= n then sent else sent[|sent| - n..]
  }

  /** One message send as the store sees it: LPUSH, then LTRIM 0 99. */
  function PushTrim<T>(list: seq<T>, m: T): seq<T>
  {
    RangeOf([m] + list, 0, Capacity - 1)
  }

  /** After a send the list is the new message followed by the first 99
      entries of the old list: at most 100 entries, the oldest one dropped. */
  lemma PushTrimShape<T>(list: seq<T>, m: T)
    ensures PushTrim(list, m) == [m] + list[..Min(|list|, Capacity - 1)]
    ensures |PushTrim(list, m)| == Min(|list| + 1, Capacity)
  {
    RangePrefix([m] + list, Capacity);
    assert ([m] + list)[..Min(|list| + 1, Capacity)] == [m] + list[..Min(|list|, Capacity - 1)];
  }

  /** `list` is the store's newest-first view of the values `sent` to its key,
      oldest first: the reversal of the newest of them, and never fewer than
      the capacity allows. A failed LTRIM can leave it longer than 100. */
  ghost predicate Tracks<T>(list: seq<T>, sent: seq<T>)
  {
    && |list| <= |sent|
    && Min(|sent|, Capacity) <= |list|
    && list == Reverse(sent[|sent| - |list|..])
  }

  /** LPUSH of the value just sent keeps the list tracking the sends. */
  lemma TracksPush<T>(list: seq<T>, sent: seq<T>, m: T)
    requires Tracks(list, sent)
    ensures Tracks([m] + list, sent + [m])
  {
    var t := sent + [m];
    var suffix := sent[|sent| - |list|..];
    assert t[|t| - |list| - 1..] == suffix + [m];
    ReverseSnoc(suffix, m);
  }

  /** LTRIM 0 99 keeps the list tracking the sends and bounds it by 100. */
  lemma TracksTrim<T>(list: seq<T>, sent: seq<T>)
    requires Tracks(list, sent)
    ensures Tracks(RangeOf(list, 0, Capacity - 1), sent)
    ensures |RangeOf(list, 0, Capacity - 1)| <= Capacity
  {
    RangePrefix(list, Capacity);
    var k := Min(|list|, Capacity);
    var suffix := sent[|sent| - |list|..];
    ReversePrefix(suffix, k);
    assert suffix[|suffix| - k..] == sent[|sent| - k..];
  }

  /** A tracking list of at most 100 entries, read oldest first, is exactly
      the 100 newest sends in send order. */
  lemma TracksWindow<T>(list: seq<T>, sent: seq<T>)
    requires Tracks(list, sent)
    requires |list| <= Capacity
    ensures Reverse(list) == Newest(sent, Capacity)
  {
    ReverseReverse(sent[|sent| - |list|..]);
  }

  /** The list a room holds after `sent` was sent to it, every store call
      succeeding, starting from an empty list. */
  function Replay<T>(sent: seq<T>): seq<T>
  {
    if sent == [] then [] else PushTrim(Replay(sent[..|sent| - 1]), sent[|sent| - 1])
  }

  lemma {:induction false} ReplayTracks<T>(sent: seq<T>)
    ensures Tracks(Replay(sent), sent)
    ensures |Replay(sent)| <= Capacity
  {
    if sent != [] {
      var init, m := sent[..|sent| - 1], sent[|sent| - 1];
      assert sent == init + [m];
      ReplayTracks(init);
      TracksPush(Replay(init), init, m);
      TracksTrim([m] + Replay(init), sent);
    }
  }

  /** History after any run of sends is the newest 100 of them, in send order. */
  lemma ReplayHistory<T>(sent: seq<T>)
    ensures Reverse(Replay(sent)) == Newest(sent, Capacity)
  {
    ReplayTracks(sent);
    TracksWindow(Replay(sent), sent);
  }

  /** After 101 sends history holds the last 100 in send order, and the first
      message, if it was not sent again, is gone. */
  lemma HundredAndOneSends<T>(sent: seq<T>)
    requires |sent| == Capacity + 1
    ensures Reverse(Replay(sent)) == sent[1..]
    ensures sent[0] !in sent[1..] ==> sent[0] !in Reverse(Replay(sent))
  {
    ReplayHistory(sent);
  }
}
