/** The in-memory conversation store of app.py: a map from user to a deque
    created with `maxlen=MAX_HISTORY`, where a missing user reads as an
    empty history (the store is a `defaultdict`). */
module History {

  datatype Role = System | User | Assistant

  datatype Turn = Turn(role: Role, content: string)

  type Store = map<string, seq<Turn>>

  /** `MAX_HISTORY` (app.py). */
  const MaxHistory: nat := 6

  /** Appending to a `deque(maxlen=MaxHistory)`: the new turn goes at the
      end and, when the deque is full, the oldest turn falls off the front. */
  function Push(h: seq<Turn>, t: Turn): (r: seq<Turn>)
    ensures |r| <= MaxHistory
    ensures |r| > 0 && r[|r| - 1] == t
    ensures |h| < MaxHistory ==> r == h + [t]
    ensures |h| == MaxHistory ==> r == h[1..] + [t]
    ensures |r| == if |h| < MaxHistory then |h| + 1 else MaxHistory
    ensures r[..|r| - 1] == h[|h| + 1 - |r|..]
  {
    var grown := h + [t];
    if |grown| <= MaxHistory then grown else grown[|grown| - MaxHistory..]
  }

  /** `conversations[user]` read without changing anything. */
  function Read(store: Store, user: string): seq<Turn> {
    if user in store then store[user] else []
  }

  /** Every user's history respects the deque's bound. */
  predicate Bounded(store: Store) {
    forall u :: u in store ==> |store[u]| <= MaxHistory
  }

  /** `conversations[user].append(turn)`. */
  function Append(store: Store, user: string, t: Turn): (r: Store)
    ensures Read(r, user) == Push(Read(store, user), t)
    ensures forall u :: u != user ==> Read(r, u) == Read(store, u)
    ensures Bounded(store) ==> Bounded(r)
  {
    var pushed := Push(Read(store, user), t);
    assert |pushed| <= MaxHistory;
    store[user := pushed]
  }

  /** `conversations[user].clear()`: the history is emptied, not removed. */
  function Clear(store: Store, user: string): (r: Store)
    ensures Read(r, user) == []
    ensures forall u :: u != user ==> Read(r, u) == Read(store, u)
    ensures Bounded(store) ==> Bounded(r)
  {
    store[user := []]
  }

  /** Clearing a history and then appending one turn leaves exactly that
      turn. */
  lemma ClearThenAppend(store: Store, user: string, t: Turn)
    ensures Read(Append(Clear(store, user), user, t), user) == [t]
  {
  }

  /** After two appends, the first appended turn is the one before the
      last, whatever the bound dropped. */
  lemma PushTwice(h: seq<Turn>, a: Turn, b: Turn)
    ensures |Push(Push(h, a), b)| >= 2
    ensures Push(Push(h, a), b)[|Push(Push(h, a), b)| - 2] == a
  {
    var once := Push(h, a);
    var twice := Push(once, b);
    assert twice[..|twice| - 1] == once[|once| + 1 - |twice|..];
    assert twice[|twice| - 2] == once[|once| - 1];
  }

  /** Appending to a full history drops exactly the oldest turn and keeps
      the remaining ones in order. */
  lemma PushFullEvictsOldest(h: seq<Turn>, t: Turn)
    requires |h| == MaxHistory
    ensures |Push(h, t)| == MaxHistory
    ensures forall i :: 0 <= i < MaxHistory - 1 ==> Push(h, t)[i] == h[i + 1]
    ensures Push(h, t)[MaxHistory - 1] == t
  {
  }
}
