/** The bounded history buffer (core/src/log_cache.rs): a vector of per-tick usage
    documents that never grows past `MAX_LOG_LENGTH`; once full, every insert drops
    the oldest document. */
module LogCache {
  import opened JsonValue

  /** 24 hours of 10-second ticks. */
  const MAX_LOG_LENGTH: nat := 8640

  /** The last `n` elements of `s`, or all of `s` when it is shorter. */
  function LastN<T>(s: seq<T>, n: nat): (r: seq<T>)
    ensures |r| == if |s| < n then |s| else n
    ensures r == s[|s| - |r|..]
  {
    if |s| <= n then s else s[|s| - n..]
  }

  /** `rotate_left(1)`: the first element moves to the back. */
  function RotateLeft<T>(s: seq<T>): (r: seq<T>)
    ensures |r| == |s|
    ensures s != [] ==> r == s[1..] + [s[0]]
  {
    if s == [] then [] else s[1..] + [s[0]]
  }

  /** The contents after one `add_and_rotate(d)`, as a value: at capacity, rotate left
      and overwrite the last slot; otherwise push. */
  function AddedAndRotated<T>(buf: seq<T>, d: T): (r: seq<T>)
    requires |buf| <= MAX_LOG_LENGTH
  {
    if |buf| >= MAX_LOG_LENGTH then RotateLeft(buf)[MAX_LOG_LENGTH - 1 := d]
    else buf + [d]
  }

  /** One insert keeps exactly the last `MAX_LOG_LENGTH` values of the old contents
      followed by `d`: the bound holds, the order is kept, `d` is last. */
  lemma AddedAndRotatedKeepsLast<T>(buf: seq<T>, d: T)
    requires |buf| <= MAX_LOG_LENGTH
    ensures AddedAndRotated(buf, d) == LastN(buf + [d], MAX_LOG_LENGTH)
    ensures |AddedAndRotated(buf, d)| <= MAX_LOG_LENGTH
    ensures AddedAndRotated(buf, d)[|AddedAndRotated(buf, d)| - 1] == d
    ensures |buf| == MAX_LOG_LENGTH ==> AddedAndRotated(buf, d) == buf[1..] + [d]
    ensures |buf| < MAX_LOG_LENGTH ==> AddedAndRotated(buf, d) == buf + [d]
  {
    if |buf| == MAX_LOG_LENGTH {
      var r := AddedAndRotated(buf, d);
      assert r == buf[1..] + [d];
      assert (buf + [d])[1..] == buf[1..] + [d];
    }
  }

  /** Taking the last `n` twice, with more appended in between, is taking it once. */
  lemma {:induction false} LastNOfLastN<T>(s: seq<T>, t: seq<T>, n: nat)
    ensures LastN(LastN(s, n) + t, n) == LastN(s + t, n)
  {
    var u := LastN(s, n);
    assert s + t == s[..|s| - |u|] + (u + t);
  }

  /** Appending nothing leaves a sequence as it is. */
  lemma AppendNothing<T>(s: seq<T>)
    ensures s + [] == s && [] + s == s
  {
  }

  /** Only the suffix matters when it is long enough, or when there is nothing before it. */
  lemma LastNOfLongSuffix<T>(front: seq<T>, tail: seq<T>, n: nat)
    requires |tail| >= n || front == []
    ensures LastN(front + tail, n) == LastN(tail, n)
  {
    if front == [] {
      assert front + tail == tail;
    } else {
      assert (front + tail)[|front + tail| - n..] == tail[|tail| - n..];
    }
  }

  /** `add_and_rotate` applied to each of `xs` in turn. */
  function Replay<T>(buf: seq<T>, xs: seq<T>): seq<T>
    requires |buf| <= MAX_LOG_LENGTH
    decreases |xs|
  {
    if xs == [] then buf
    else
      AddedAndRotatedKeepsLast(buf, xs[0]);
      Replay(AddedAndRotated(buf, xs[0]), xs[1..])
  }

  /** After any sequence of inserts the buffer holds the last `MAX_LOG_LENGTH` values of
      its old contents followed by the inserts, oldest first; from empty, the last
      min(N, MAX_LOG_LENGTH) of N inserts. */
  lemma {:induction false} ReplayKeepsLast<T>(buf: seq<T>, xs: seq<T>)
    requires |buf| <= MAX_LOG_LENGTH
    ensures Replay(buf, xs) == LastN(buf + xs, MAX_LOG_LENGTH)
    decreases |xs|
  {
    if xs == [] {
      assert buf + xs == buf;
    } else {
      AddedAndRotatedKeepsLast(buf, xs[0]);
      ReplayKeepsLast(AddedAndRotated(buf, xs[0]), xs[1..]);
      LastNOfLastN(buf + [xs[0]], xs[1..], MAX_LOG_LENGTH);
      assert buf + [xs[0]] + xs[1..] == buf + xs;
    }
  }

  /** The history buffer. `container` is the Rust `Vec`, reassigned by each operation. */
  class LogCache {
    var container: seq<Json>

    ghost predicate Valid()
      reads this
    {
      |container| <= MAX_LOG_LENGTH
    }

    /** `LogCache::new`: an empty buffer. */
    constructor ()
      ensures Valid() && Data() == []
    {
      container := [];
    }

    /** `data()`: the contents, oldest first; reading them changes nothing. */
    function Data(): (r: seq<Json>)
      reads this
      requires Valid()
      ensures |r| <= MAX_LOG_LENGTH
    {
      container
    }

    /** `add_and_rotate(d)`. */
    method AddAndRotate(d: Json)
      requires Valid()
      modifies this
      ensures Valid()
      ensures Data() == LastN(old(Data()) + [d], MAX_LOG_LENGTH)
    {
      AddedAndRotatedKeepsLast(container, d);
      if |container| >= MAX_LOG_LENGTH {
        container := RotateLeft(container);
        container := container[MAX_LOG_LENGTH - 1 := d];
      } else {
        container := container + [d];
      }
    }
  }
}
