/** The shout behaviour of src/shout.go: a two-state machine that, each
    time the shout interval has elapsed, takes the next configured message
    in turn and types it into the chat box.  The clock is a parameter and
    the movement coordinator is the trace of inputs it is asked to send. */
module Shout {
  import opened GoInt
  import opened Wrappers
  import opened Clock
  import opened Text

  /** `ShoutState` is a Go `int`; these are its two named values. */
  const Idle: int := 0
  const Shouting: int := 1

  /** `ShoutState.String`. */
  function StateName(s: int): (name: string)
    ensures name == "Idle" <==> s == Idle
    ensures name == "Shouting" <==> s == Shouting
    ensures name == "Unknown" <==> s != Idle && s != Shouting
  {
    if s == Idle then "Idle" else if s == Shouting then "Shouting" else "Unknown"
  }

  /** What the behaviour asks the movement coordinator to do. */
  datatype Input =
    | PressKey(key: string)
    | TypeText(text: string)
    | WaitRandom(minMs: int, maxMs: int)
    | Wait(d: Duration)

  /** `performShout`: open the chat box, type, send, close; nothing at all
      for a blank message. */
  function ShoutInputs(message: string): (inputs: seq<Input>)
    ensures Strip(message) == "" <==> inputs == []
    ensures inputs != [] ==> (|inputs| == 8 && inputs[2] == TypeText(message) &&
                              inputs[0] == inputs[4] == PressKey("Enter") && inputs[6] == PressKey("Escape"))
  {
    if Strip(message) == "" then []
    else
      [PressKey("Enter"), WaitRandom(100, 250),
       TypeText(message), WaitRandom(100, 200),
       PressKey("Enter"), WaitRandom(100, 250),
       PressKey("Escape"), Wait(100 * Millisecond)]
  }

  /** `getNextMessage` on the list and index: "" for an empty list, else
      the trimmed current message and the index advanced cyclically.  An
      index past the end of a non-empty list is Go's index-out-of-range
      panic. */
  function NextMessage(messages: seq<string>, index: nat): (r: Result<(string, nat)>)
    ensures r.Err? <==> messages != [] && index >= |messages|
    ensures messages == [] ==> r == Ok(("", index))
    ensures r.Ok? && messages != [] ==> r.value.1 < |messages| && r.value.0 == Strip(messages[index])
  {
    if messages == [] then Ok(("", index))
    else if index >= |messages| then Err("index out of range")
    else Ok((Strip(messages[index]), (index + 1) % |messages|))
  }

  /** The messages `k` successive calls return, starting at `index`. */
  function Calls(messages: seq<string>, index: nat, k: nat): (r: seq<Result<string>>)
    ensures |r| == k
    decreases k
  {
    if k == 0 then []
    else
      var n := NextMessage(messages, index);
      if n.Err? then [Err(n.error)] + Calls(messages, index, k - 1)
      else [Ok(n.value.0)] + Calls(messages, n.value.1, k - 1)
  }

  lemma MulAtLeast(a: int, n: int)
    requires a >= 1 && n > 0
    ensures a * n >= n
  {
  }

  /** The remainder is the unique one in [0, n). */
  lemma ModUnique(y: int, q: int, r: int, n: int)
    requires n > 0 && 0 <= r < n && y == q * n + r
    ensures y % n == r
  {
    var q', r' := y / n, y % n;
    assert y == q' * n + r';
    assert (q - q') * n == r' - r;
    if q > q' {
      MulAtLeast(q - q', n);
    } else if q < q' {
      MulAtLeast(q' - q, n);
    }
  }

  lemma ModShift(x: nat, n: nat)
    requires n > 0
    ensures (x + n) % n == x % n
  {
    ModUnique(x + n, x / n + 1, x % n, n);
  }

  /** Advancing the index cyclically and then by j - 1 is advancing by j. */
  lemma ModStep(i: nat, j: nat, n: nat)
    requires i < n && j >= 1
    ensures ((i + 1) % n + (j - 1)) % n == (i + j) % n
  {
    if i + 1 == n {
      ModUnique(i + 1, 1, 0, n);
      ModShift(j - 1, n);
      assert i + j == (j - 1) + n;
    } else {
      ModUnique(i + 1, 0, i + 1, n);
    }
  }

  /** One call from a valid index returns its trimmed message first. */
  lemma CallsHead(messages: seq<string>, index: nat, k: nat)
    requires index < |messages| && k > 0
    ensures Calls(messages, index, k) == [Ok(Strip(messages[index]))] + Calls(messages, (index + 1) % |messages|, k - 1)
  {
  }

  /** Call j from a valid index returns message `(index + j) mod n`. */
  lemma {:induction false} CallsAt(messages: seq<string>, index: nat, k: nat, j: nat)
    requires index < |messages| && j < k
    ensures Calls(messages, index, k)[j] == Ok(Strip(messages[(index + j) % |messages|]))
    decreases j
  {
    var n := |messages|;
    var next := (index + 1) % n;
    var rest := Calls(messages, next, k - 1);
    CallsHead(messages, index, k);
    if j == 0 {
      ModUnique(index, 0, index, n);
    } else {
      CallsAt(messages, next, k - 1, j - 1);
      assert Calls(messages, index, k)[1..] == rest;
      ModStep(index, j, n);
    }
  }

  /** From a valid index the messages come round in order: call j returns
      message `(index + j) mod n`, trimmed. */
  lemma CallsCycle(messages: seq<string>, index: nat, k: nat)
    requires index < |messages|
    ensures forall j :: 0 <= j < k ==> Calls(messages, index, k)[j] == Ok(Strip(messages[(index + j) % |messages|]))
  {
    forall j | 0 <= j < k ensures Calls(messages, index, k)[j] == Ok(Strip(messages[(index + j) % |messages|])) {
      CallsAt(messages, index, k, j);
    }
  }

  /** A new, shorter list leaves the index where it was: if it was the
      last slot of the old list, the next call panics. */
  lemma ShorterListStrandsIndex(old_messages: seq<string>, index: nat, new_messages: seq<string>)
    requires index < |old_messages| && 0 < |new_messages| <= index
    ensures NextMessage(old_messages, index).Ok?
    ensures NextMessage(new_messages, index).Err?
  {
  }

  /** The plainest case: two messages, the second one current, replaced by
      one message. */
  lemma ShorterListExample()
    ensures NextMessage(["a", "b"], 1).Ok?
    ensures NextMessage(["c"], 1) == Err("index out of range")
  {
  }

  /** The fields of a `ShoutBehavior` as a value. */
  datatype Memory = Memory(state: int, messages: seq<string>, interval: Duration, lastShoutTime: Time,
                           index: nat, inputs: seq<Input>)

  /** `updateConfig`: only a non-empty list replaces the messages and
      only a positive interval the interval; the index is left alone. */
  function Configured(b: Memory, configMessages: seq<string>, configInterval: int): (a: Memory)
    ensures a.state == b.state && a.index == b.index && a.lastShoutTime == b.lastShoutTime && a.inputs == b.inputs
    ensures a.messages == b.messages <==> |configMessages| == 0 || configMessages == b.messages
  {
    b.(messages := if |configMessages| > 0 then configMessages else b.messages,
       interval := if configInterval > 0 then FromMilliseconds(configInterval) else b.interval)
  }

  /** `onIdle`: before the interval has elapsed nothing happens; then
      with no messages, or a blank one, only the clock restarts (and the
      index moves past the blank one); else the message is shouted and
      the next state is Shouting.  An index out of range is an error. */
  predicate IdleStep(b: Memory, a: Memory, next: Result<int>, now: Time)
  {
    if Sub(now, b.lastShoutTime) < b.interval then next == Ok(Idle) && a == b
    else if b.messages == [] then next == Ok(Idle) && a == b.(lastShoutTime := now)
    else
      var n := NextMessage(b.messages, b.index);
      if n.Err? then next == Err(n.error) && a == b
      else if n.value.0 == "" then next == Ok(Idle) && a == b.(index := n.value.1, lastShoutTime := now)
      else next == Ok(Shouting) && a == b.(index := n.value.1, inputs := b.inputs + ShoutInputs(n.value.0))
  }

  /** `Run`: the configuration refresh, then one step of the machine from
      the refreshed state `c`: an Idle step stores its next state (or,
      on an error, leaves the state Idle and passes the error on); a
      Shouting step restarts the clock and goes back to Idle; an unknown
      state goes back to Idle. */
  predicate Ran(b: Memory, a: Memory, r: Result<()>, now: Time, configMessages: seq<string>, configInterval: int)
  {
    var c := Configured(b, configMessages, configInterval);
    if c.state == Idle then
      (r.Err? ==> a.state == Idle) &&
      IdleStep(c, a.(state := Idle), if r.Ok? then Ok(a.state) else Err(r.error), now)
    else if c.state == Shouting then r == Ok(()) && a == c.(state := Idle, lastShoutTime := now)
    else r == Ok(()) && a == c.(state := Idle)
  }

  /** One run from Idle, once the interval has elapsed, shouts the next
      message exactly when it is not blank, and fails exactly when the
      index is out of range of a non-empty list. */
  lemma RanIdle(b: Memory, a: Memory, r: Result<()>, now: Time, configMessages: seq<string>, configInterval: int)
    requires b.state == Idle
    requires Ran(b, a, r, now, configMessages, configInterval)
    ensures var c := Configured(b, configMessages, configInterval);
      Sub(now, c.lastShoutTime) >= c.interval && c.messages != [] ==>
        (r.Err? <==> c.index >= |c.messages|) &&
        (r.Ok? ==> (a.state == Shouting <==> Strip(c.messages[c.index]) != ""))
    ensures r.Ok? ==> a.state == Idle || a.state == Shouting
    ensures a.messages == Configured(b, configMessages, configInterval).messages
    ensures b.inputs <= a.inputs
  {
    var c := Configured(b, configMessages, configInterval);
    if Sub(now, c.lastShoutTime) >= c.interval && c.messages != [] && c.index < |c.messages| {
      StripIdempotent(GoUnicode, c.messages[c.index]);
    }
  }

  class ShoutBehavior {
    var state: int
    var messages: seq<string>
    var interval: Duration
    var lastShoutTime: Time
    var index: nat
    /** The inputs sent to the movement coordinator so far. */
    var inputs: seq<Input>

    /** `NewShoutBehavior`: idle, no messages, 30 seconds, clock started
        now. */
    constructor (now: Time)
      ensures state == Idle && messages == [] && interval == 30 * Second
      ensures lastShoutTime == now && index == 0 && inputs == []
    {
      state := Idle;
      messages := [];
      interval := 30 * Second;
      lastShoutTime := now;
      index := 0;
      inputs := [];
    }

    function GetState(): (name: string)
      reads this
      ensures name == "Unknown" <==> state != Idle && state != Shouting
    {
      StateName(state)
    }

    function Memo(): Memory
      reads this
    {
      Memory(state, messages, interval, lastShoutTime, index, inputs)
    }

    /** The index points into the list, or the list is empty. */
    predicate IndexValid()
      reads this
    {
      messages == [] || index < |messages|
    }

    /** `updateConfig`: only a non-empty list replaces the messages and
        only a positive interval the interval; the index is left alone. */
    method UpdateConfig(configMessages: seq<string>, configInterval: int)
      modifies this
      ensures messages == if |configMessages| > 0 then configMessages else old(messages)
      ensures interval == if configInterval > 0 then FromMilliseconds(configInterval) else old(interval)
      ensures index == old(index) && state == old(state)
      ensures lastShoutTime == old(lastShoutTime) && inputs == old(inputs)
      ensures Memo() == Configured(old(Memo()), configMessages, configInterval)
    {
      if |configMessages| > 0 {
        messages := configMessages;
      }
      if configInterval > 0 {
        interval := FromMilliseconds(configInterval);
      }
    }

    /** `getNextMessage`: returns what `NextMessage` gives and moves the
        index on. */
    method GetNextMessage() returns (r: Result<string>)
      modifies this
      ensures NextMessage(old(messages), old(index)).Err? ==>
                r == Err(NextMessage(old(messages), old(index)).error) && index == old(index)
      ensures NextMessage(old(messages), old(index)).Ok? ==>
                r == Ok(NextMessage(old(messages), old(index)).value.0) &&
                index == NextMessage(old(messages), old(index)).value.1
      ensures old(IndexValid()) ==> IndexValid()
      ensures messages == old(messages) && state == old(state)
      ensures interval == old(interval) && lastShoutTime == old(lastShoutTime) && inputs == old(inputs)
    {
      if |messages| == 0 {
        return Ok("");
      }
      if index >= |messages| {
        return Err("index out of range");
      }
      var message := messages[index];
      index := (index + 1) % |messages|;
      return Ok(Strip(message));
    }

    /** `onIdle`: before the interval has elapsed nothing happens; then
        with no messages, or a blank one, only the clock restarts; else the
        message is shouted and the state becomes Shouting. */
    method OnIdle(now: Time) returns (next: Result<int>)
      modifies this
      ensures Sub(now, old(lastShoutTime)) < interval ==>
                next == Ok(Idle) && index == old(index) && lastShoutTime == old(lastShoutTime) && inputs == old(inputs)
      ensures Sub(now, old(lastShoutTime)) >= interval && old(messages) == [] ==>
                next == Ok(Idle) && lastShoutTime == now && inputs == old(inputs)
      ensures Sub(now, old(lastShoutTime)) >= interval && old(messages) != [] ==>
                var n := NextMessage(old(messages), old(index));
                (n.Err? ==> next.Err?) &&
                (n.Ok? && n.value.0 == "" ==> next == Ok(Idle) && lastShoutTime == now && inputs == old(inputs)) &&
                (n.Ok? && n.value.0 != "" ==>
                   next == Ok(Shouting) && lastShoutTime == old(lastShoutTime) && inputs == old(inputs) + ShoutInputs(n.value.0))
      ensures old(IndexValid()) ==> IndexValid()
      ensures messages == old(messages) && interval == old(interval) && state == old(state)
      ensures IdleStep(old(Memo()), Memo(), next, now)
    {
      if Sub(now, lastShoutTime) >= interval {
        if |messages| == 0 {
          lastShoutTime := now;
          return Ok(Idle);
        }
        var message := GetNextMessage();
        if message.Err? {
          return Err(message.error);
        }
        if message.value == "" {
          lastShoutTime := now;
          return Ok(Idle);
        }
        inputs := inputs + ShoutInputs(message.value);
        return Ok(Shouting);
      }
      return Ok(Idle);
    }

    /** `onShouting`: the shout already happened; restart the clock. */
    method OnShouting(now: Time) returns (next: int)
      modifies this
      ensures next == Idle && lastShoutTime == now
      ensures state == old(state) && messages == old(messages) && interval == old(interval)
      ensures index == old(index) && inputs == old(inputs)
    {
      lastShoutTime := now;
      return Idle;
    }

    /** `Run`: refresh the configuration, then take one step of the state
        machine; an unknown state falls back to Idle. */
    method Run(now: Time, configMessages: seq<string>, configInterval: int) returns (r: Result<()>)
      modifies this
      ensures r.Ok? ==> state == Idle || state == Shouting
      ensures old(state) == Shouting ==> r.Ok? && state == Idle && lastShoutTime == now
      ensures old(state) != Idle && old(state) != Shouting ==> r.Ok? && state == Idle
      ensures old(state) == Idle && old(IndexValid()) && |configMessages| == 0 ==> r.Ok?
      ensures Ran(old(Memo()), Memo(), r, now, configMessages, configInterval)
    {
      UpdateConfig(configMessages, configInterval);
      if state == Idle {
        var next := OnIdle(now);
        if next.Err? {
          return Err(next.error);
        }
        state := next.value;
      } else if state == Shouting {
        state := OnShouting(now);
      } else {
        state := Idle;
      }
      return Ok(());
    }

    /** `Stop`: back to Idle, nothing else touched. */
    method Stop()
      modifies this
      ensures state == Idle && messages == old(messages) && interval == old(interval)
      ensures lastShoutTime == old(lastShoutTime) && index == old(index) && inputs == old(inputs)
    {
      state := Idle;
    }
  }

  /** A shout is sent only for a message that is not blank after
      trimming, and it types exactly that message. */
  lemma ShoutTypesTrimmed(messages: seq<string>, index: nat)
    requires index < |messages| && Strip(messages[index]) != ""
    ensures ShoutInputs(NextMessage(messages, index).value.0) != [] &&
            ShoutInputs(NextMessage(messages, index).value.0)[2] == TypeText(Strip(messages[index]))
  {
    StripIdempotent(GoUnicode, messages[index]);
  }
}
