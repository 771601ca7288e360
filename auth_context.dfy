/**
 * The mock session and history store of contexts/auth-context.tsx: the
 * `AuthProvider` state (`user`, `isLoading`, `predictionHistory`) and the
 * browser's local storage, which holds the session under "reviewguard_user"
 * and the history under "reviewguard_history". `JSON.stringify` and
 * `JSON.parse` are the identity here, the clock and the random ids are
 * parameters, and the one-second artificial delays are not modelled.
 */
module Auth {
  import opened Common

  datatype User = User(id: string, email: string, name: string, createdAt: string)

  datatype HistoryEntry = HistoryEntry(
    id: string,
    reviewText: string,
    classification: Label,
    confidence: int,
    timestamp: string)

  /** A local-storage value, kept as the record it serialises. */
  datatype Stored = StoredUser(user: User) | StoredHistory(entries: seq<HistoryEntry>)

  /** How an `async` call ended: it returned, or it threw an `Error`. */
  datatype Outcome = Completed | Threw(message: string)

  const UserKey: string := "reviewguard_user"
  const HistoryKey: string := "reviewguard_history"
  const HistoryLimit: nat := 10

  const DemoEmail: string := "demo@example.com"
  const DemoPassword: string := "password"
  const DemoId: string := "1"
  const DemoName: string := "Demo User"
  const InvalidCredentialsMessage: string := "Invalid credentials"

  function Min(a: nat, b: nat): nat {
    if a <= b then a else b
  }

  // ---------------------------------------------------------------------------
  // the history list

  /** `[newPrediction, ...prev].slice(0, 10)`. */
  function PrependCapped(entry: HistoryEntry, prev: seq<HistoryEntry>): seq<HistoryEntry>
  {
    ([entry] + prev)[..Min(|prev| + 1, HistoryLimit)]
  }

  /** The new entry comes first, followed by the newest old entries; the list
      grows by one until it holds 10, and from then on the oldest is dropped. */
  lemma PrependCappedShape(entry: HistoryEntry, prev: seq<HistoryEntry>)
    ensures var r := PrependCapped(entry, prev);
      && |r| == Min(|prev| + 1, HistoryLimit)
      && r[0] == entry
      && r[1..] == prev[..|r| - 1]
  {
    var r := PrependCapped(entry, prev);
    assert r[1..] == ([entry] + prev)[1..|r|];
  }

  /** The history after adding `entries`, in that order, to `prev`. */
  function AddAll(prev: seq<HistoryEntry>, entries: seq<HistoryEntry>): seq<HistoryEntry>
    decreases |entries|
  {
    if |entries| == 0 then prev else AddAll(PrependCapped(entries[0], prev), entries[1..])
  }

  function Reverse<T>(s: seq<T>): (r: seq<T>)
    ensures |r| == |s|
    ensures forall k :: 0 <= k < |s| ==> r[k] == s[|s| - 1 - k]
  {
    if |s| == 0 then [] else Reverse(s[1..]) + [s[0]]
  }

  /** After any series of adds to a history of at most 10 entries, the
      history holds the new entries newest first, then what was there before,
      cut to the 10 newest. */
  lemma {:induction false} AddAllKeepsNewest(prev: seq<HistoryEntry>, entries: seq<HistoryEntry>)
    requires |prev| <= HistoryLimit
    ensures AddAll(prev, entries) == (Reverse(entries) + prev)[..Min(|entries| + |prev|, HistoryLimit)]
    decreases |entries|
  {
    if |entries| > 0 {
      var e, es := entries[0], entries[1..];
      var p := PrependCapped(e, prev);
      AddAllKeepsNewest(p, es);
      PrependCappedShape(e, prev);
      var k := Min(|es| + |p|, HistoryLimit);
      assert k == Min(|entries| + |prev|, HistoryLimit);
      var lhs := (Reverse(es) + p)[..k];
      var rhs := (Reverse(entries) + prev)[..k];
      assert Reverse(entries) == Reverse(es) + [e];
      forall j | 0 <= j < k ensures lhs[j] == rhs[j] {
        if j < |es| {
          assert lhs[j] == Reverse(es)[j] == rhs[j];
        } else if j == |es| {
          assert lhs[j] == p[0] == e == rhs[j];
        } else {
          assert lhs[j] == p[j - |es|] == prev[j - |es| - 1] == rhs[j];
        }
      }
      assert lhs == rhs;
      assert AddAll(prev, entries) == AddAll(p, es);
    }
  }

  /** Starting from an empty history, the list is the last (at most 10)
      entries added, newest first: after 2 adds it holds those 2, after 11
      the first one has been evicted. */
  lemma AddAllNewestFirst(entries: seq<HistoryEntry>)
    ensures var h := AddAll([], entries);
      && |h| == Min(|entries|, HistoryLimit)
      && forall k :: 0 <= k < |h| ==> h[k] == entries[|entries| - 1 - k]
  {
    AddAllKeepsNewest([], entries);
    assert Reverse(entries) + [] == Reverse(entries);
  }

  // ---------------------------------------------------------------------------
  // local storage

  /** The two keys hold what the app writes under them: a user, and a history
      of at most 10 entries. Other keys may hold anything. */
  predicate WellFormedStore(storage: map<string, Stored>) {
    && (UserKey in storage ==> storage[UserKey].StoredUser?)
    && (HistoryKey in storage ==> storage[HistoryKey].StoredHistory?
                                  && |storage[HistoryKey].entries| <= HistoryLimit)
  }

  /** Storage mirrors the in-memory state: the user is stored exactly when
      someone is signed in, and the stored history is the in-memory one (an
      absent key standing for the empty history). */
  predicate Synced(storage: map<string, Stored>, user: Option<User>, history: seq<HistoryEntry>) {
    && (UserKey in storage <==> user.Some?)
    && (user.Some? ==> storage[UserKey] == StoredUser(user.value))
    && (HistoryKey in storage ==> storage[HistoryKey] == StoredHistory(history))
    && (HistoryKey !in storage ==> history == [])
  }

  /** The mount effect: a stored user and a stored history replace the
      current ones; an absent key leaves the current value. */
  function Restore(storage: map<string, Stored>, user: Option<User>, history: seq<HistoryEntry>)
    : (Option<User>, seq<HistoryEntry>)
    requires WellFormedStore(storage)
  {
    (if UserKey in storage then Some(storage[UserKey].user) else user,
     if HistoryKey in storage then storage[HistoryKey].entries else history)
  }

  /** What the app wrote is what the next mount reads back. */
  lemma RestoreRoundTrip(storage: map<string, Stored>, user: Option<User>, history: seq<HistoryEntry>)
    requires WellFormedStore(storage) && Synced(storage, user, history)
    ensures Restore(storage, None, []) == (user, history)
  {
  }

  /** A fresh mount leaves memory in step with storage. */
  lemma RestoreSyncs(storage: map<string, Stored>)
    requires WellFormedStore(storage)
    ensures var (u, h) := Restore(storage, None, []); Synced(storage, u, h)
  {
  }

  // ---------------------------------------------------------------------------
  // the provider

  class AuthProvider {
    var user: Option<User>
    var isLoading: bool
    var predictionHistory: seq<HistoryEntry>
    var storage: map<string, Stored>

    predicate Valid()
      reads this
    {
      WellFormedStore(storage) && |predictionHistory| <= HistoryLimit
    }

    /** The provider's first render, over whatever the browser has stored. */
    constructor (saved: map<string, Stored>)
      requires WellFormedStore(saved)
      ensures Valid()
      ensures user == None && isLoading && predictionHistory == [] && storage == saved
    {
      user := None;
      isLoading := true;
      predictionHistory := [];
      storage := saved;
    }

    /** The mount `useEffect`: restore the session and the history, then stop loading. */
    method Mount()
      requires Valid()
      modifies this
      ensures Valid()
      ensures (user, predictionHistory) == Restore(old(storage), old(user), old(predictionHistory))
      ensures storage == old(storage) && !isLoading
      ensures old(user) == None && old(predictionHistory) == [] ==> Synced(storage, user, predictionHistory)
    {
      if UserKey in storage {
        user := Some(storage[UserKey].user);
      }
      if HistoryKey in storage {
        predictionHistory := storage[HistoryKey].entries;
      }
      isLoading := false;
    }

    /** `login`: only the demo identity is accepted. On a mismatch the call
        throws before `isLoading` is reset, so it stays true. */
    method Login(email: string, password: string, now: string) returns (outcome: Outcome)
      requires Valid()
      modifies this
      ensures Valid()
      ensures outcome == Completed <==> email == DemoEmail && password == DemoPassword
      ensures outcome.Completed? ==>
        && user == Some(User(DemoId, email, DemoName, now))
        && storage == old(storage)[UserKey := StoredUser(user.value)]
        && !isLoading
      ensures outcome.Threw? ==>
        && outcome.message == InvalidCredentialsMessage
        && user == old(user) && storage == old(storage) && isLoading
      ensures predictionHistory == old(predictionHistory)
      ensures old(Synced(storage, user, predictionHistory)) ==> Synced(storage, user, predictionHistory)
    {
      isLoading := true;
      if email == DemoEmail && password == DemoPassword {
        var mockUser := User(DemoId, email, DemoName, now);
        user := Some(mockUser);
        storage := storage[UserKey := StoredUser(mockUser)];
      } else {
        return Threw(InvalidCredentialsMessage);
      }
      isLoading := false;
      outcome := Completed;
    }

    /** `login` as evidently intended: the same check, with the reset of
        `isLoading` in a `finally`, so a failed attempt does not leave the
        login form disabled. */
    method LoginResettingLoading(email: string, password: string, now: string) returns (outcome: Outcome)
      requires Valid()
      modifies this
      ensures Valid()
      ensures outcome == Completed <==> email == DemoEmail && password == DemoPassword
      ensures outcome.Completed? ==>
        && user == Some(User(DemoId, email, DemoName, now))
        && storage == old(storage)[UserKey := StoredUser(user.value)]
      ensures outcome.Threw? ==>
        && outcome.message == InvalidCredentialsMessage
        && user == old(user) && storage == old(storage)
      ensures !isLoading
      ensures predictionHistory == old(predictionHistory)
      ensures old(Synced(storage, user, predictionHistory)) ==> Synced(storage, user, predictionHistory)
    {
      isLoading := true;
      if email == DemoEmail && password == DemoPassword {
        var mockUser := User(DemoId, email, DemoName, now);
        user := Some(mockUser);
        storage := storage[UserKey := StoredUser(mockUser)];
        outcome := Completed;
      } else {
        outcome := Threw(InvalidCredentialsMessage);
      }
      isLoading := false;
    }

    /** `signup`: always succeeds; the password is not looked at. */
    method Signup(email: string, password: string, name: string, id: string, now: string)
      requires Valid()
      modifies this
      ensures Valid()
      ensures user == Some(User(id, email, name, now))
      ensures storage == old(storage)[UserKey := StoredUser(user.value)]
      ensures !isLoading
      ensures predictionHistory == old(predictionHistory)
      ensures old(Synced(storage, user, predictionHistory)) ==> Synced(storage, user, predictionHistory)
    {
      isLoading := true;
      var mockUser := User(id, email, name, now);
      user := Some(mockUser);
      storage := storage[UserKey := StoredUser(mockUser)];
      isLoading := false;
    }

    /** `logout`: forget the session and the history, in memory and in storage. */
    method Logout()
      requires Valid()
      modifies this
      ensures Valid()
      ensures user == None && predictionHistory == []
      ensures storage == old(storage) - {UserKey, HistoryKey}
      ensures isLoading == old(isLoading)
      ensures Synced(storage, user, predictionHistory)
    {
      user := None;
      predictionHistory := [];
      storage := storage - {UserKey, HistoryKey};
    }

    /** `addPredictionToHistory`: with no one signed in nothing happens;
        otherwise the entry goes first, the list keeps the 10 newest, and the
        new list is written to storage. */
    method AddPredictionToHistory(reviewText: string, classification: Label, confidence: int,
                                  id: string, timestamp: string)
      requires Valid()
      modifies this
      ensures Valid()
      ensures user == old(user) && isLoading == old(isLoading)
      ensures old(user).None? ==> predictionHistory == old(predictionHistory) && storage == old(storage)
      ensures old(user).Some? ==>
        && predictionHistory == PrependCapped(HistoryEntry(id, reviewText, classification, confidence, timestamp),
                                              old(predictionHistory))
        && storage == old(storage)[HistoryKey := StoredHistory(predictionHistory)]
      ensures old(user).Some? ==> HistoryKey in storage && storage[HistoryKey] == StoredHistory(predictionHistory)
      ensures old(Synced(storage, user, predictionHistory)) ==> Synced(storage, user, predictionHistory)
    {
      if user.None? {
        return;
      }
      var newPrediction := HistoryEntry(id, reviewText, classification, confidence, timestamp);
      var updated := PrependCapped(newPrediction, predictionHistory);
      PrependCappedShape(newPrediction, predictionHistory);
      storage := storage[HistoryKey := StoredHistory(updated)];
      predictionHistory := updated;
    }
  }

  /** A session from an empty browser profile: a wrong password throws and,
      as written, leaves `isLoading` set; the demo identity signs in; two
      predictions are listed newest first; logout forgets everything. */
  method DemoSession()
  {
    var p := new AuthProvider(map[]);
    p.Mount();
    assert !p.isLoading && p.user == None && p.predictionHistory == [];
    var o := p.Login(DemoEmail, "wrong", "t0");
    assert o == Threw(InvalidCredentialsMessage) && p.isLoading && p.user == None;
    o := p.Login(DemoEmail, DemoPassword, "t1");
    assert o == Completed && !p.isLoading;
    assert p.user == Some(User("1", "demo@example.com", "Demo User", "t1"));
    assert p.storage[UserKey] == StoredUser(p.user.value);
    p.AddPredictionToHistory("first", Fake, 80, "a", "t2");
    p.AddPredictionToHistory("second", Genuine, 91, "b", "t3");
    assert |p.predictionHistory| == 2;
    assert p.predictionHistory[0].reviewText == "second" && p.predictionHistory[1].reviewText == "first";
    assert p.storage[HistoryKey] == StoredHistory(p.predictionHistory);
    p.Logout();
    assert p.user == None && p.predictionHistory == [];
    assert UserKey !in p.storage && HistoryKey !in p.storage;
  }
}
