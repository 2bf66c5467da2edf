/** useDraftPersistence.ts: a per-(user, review) draft kept in the browser's key-value storage,
    with a 24-hour expiry on load, a one-second debounced save that writes only when the form has
    content, and a cleanup that cancels the pending save. Time is in milliseconds and is an
    explicit clock; the storage is a map; the timer is a pending-write field fired by `Tick`. */
module Drafts {
  import opened Wrappers
  import opened Types
  import opened Text
  import opened Decimal

  const StorageKeyPrefix: string := "review_draft_"

  /** `DRAFT_EXPIRY_HOURS` (24) in milliseconds. */
  const ExpiryMillis: int := 24 * 60 * 60 * 1000

  /** The debounce delay of `debouncedSave`. */
  const DebounceMillis: int := 1000

  datatype Draft = Draft(scores: seq<CriterionScore>, comment: string, lastModified: int)

  /** A stored value: a draft, or text that does not parse as one. */
  datatype Stored = Entry(draft: Draft) | Corrupt

  /** The write a pending timer will perform when it fires at `deadline`. */
  datatype PendingWrite = PendingWrite(deadline: int, scores: seq<CriterionScore>, comment: string)

  /** `${STORAGE_KEY_PREFIX}${userId}_${reviewId}`. */
  function StorageKey(userId: string, reviewId: int): (key: string)
    ensures |key| > |StorageKeyPrefix| + |userId|
    ensures key[..|StorageKeyPrefix|] == StorageKeyPrefix
  {
    StorageKeyPrefix + userId + "_" + IntToDecimal(reviewId)
  }

  /** Distinct (user, review) pairs get distinct keys: the number has no underscore, so the last
      underscore of the key separates the two. */
  lemma StorageKeyInjective(u1: string, r1: int, u2: string, r2: int)
    requires StorageKey(u1, r1) == StorageKey(u2, r2)
    ensures u1 == u2 && r1 == r2
  {
    var p := StorageKeyPrefix;
    var d1, d2 := IntToDecimal(r1), IntToDecimal(r2);
    var a, b := u1 + "_" + d1, u2 + "_" + d2;
    assert a == StorageKey(u1, r1)[|p|..];
    assert b == StorageKey(u2, r2)[|p|..];
    assert a[|u1|] == '_' && b[|u2|] == '_';
    assert |u1| == |u2|;
    assert u1 == a[..|u1|] && u2 == b[..|u2|];
    assert d1 == a[|u1| + 1..] && d2 == b[|u2| + 1..];
    IntToDecimalInjective(r1, r2);
  }

  /** Older than 24 hours: `(now - lastModified) / 3600000 > 24`, which is exactly this. */
  predicate Expired(d: Draft, now: int)
  {
    now - d.lastModified > ExpiryMillis
  }

  /** What `loadDraft` returns. */
  function Loaded(storage: map<string, Stored>, key: string, now: int): (r: Option<Draft>)
    ensures r.Some? <==> key in storage && storage[key].Entry? && !Expired(storage[key].draft, now)
    ensures r.Some? ==> r.value == storage[key].draft
  {
    if key in storage && storage[key].Entry? && !Expired(storage[key].draft, now) then Some(storage[key].draft)
    else None
  }

  /** The storage after `loadDraft`: an expired draft is removed, nothing else changes. */
  function AfterLoad(storage: map<string, Stored>, key: string, now: int): (r: map<string, Stored>)
    ensures key in storage && storage[key].Entry? && Expired(storage[key].draft, now) ==> r == storage - {key}
    ensures !(key in storage && storage[key].Entry? && Expired(storage[key].draft, now)) ==> r == storage
  {
    if key in storage && storage[key].Entry? && Expired(storage[key].draft, now) then storage - {key} else storage
  }

  /** `hasScores || hasComment`: some score is set, or the comment has a character that is not
      whitespace (which is when `comment.trim()` is not empty, by `TrimEmptyIff`). */
  predicate HasContent(scores: seq<CriterionScore>, comment: string)
  {
    (exists k :: 0 <= k < |scores| && scores[k].score.Some?) || !AllWhitespace(comment)
  }

  /** A draft saved at `t` loads back unchanged until 24 hours have passed, at which point it
      stops loading; an age of exactly 24 hours still loads. */
  lemma LoadAfterSave(storage: map<string, Stored>, key: string, d: Draft, now: int)
    ensures Loaded(storage[key := Entry(d)], key, now) == (if now - d.lastModified <= ExpiryMillis then Some(d) else None)
    ensures AfterLoad(storage[key := Entry(d)], key, now)
      == (if now - d.lastModified <= ExpiryMillis then storage[key := Entry(d)] else storage - {key})
  {
    if now - d.lastModified > ExpiryMillis {
      assert storage[key := Entry(d)] - {key} == storage - {key};
    }
  }

  class DraftStore {
    const key: string
    /** False when the storage throws on every access (disabled or full). */
    const available: bool
    var storage: map<string, Stored>
    var now: int
    var pending: Option<PendingWrite>

    constructor (userId: string, reviewId: int, storageWorks: bool, initial: map<string, Stored>, clock: int)
      ensures key == StorageKey(userId, reviewId) && available == storageWorks
      ensures storage == initial && now == clock && pending == None
    {
      key := StorageKey(userId, reviewId);
      available := storageWorks;
      storage := initial;
      now := clock;
      pending := None;
    }

    /** `loadDraft`: the stored draft unless it is missing, corrupt or expired; an expired one is
        removed. A failing storage yields none. */
    method LoadDraft() returns (d: Option<Draft>)
      modifies this
      ensures !available ==> d == None && storage == old(storage)
      ensures available ==> d == Loaded(old(storage), key, now) && storage == AfterLoad(old(storage), key, now)
      ensures now == old(now) && pending == old(pending)
    {
      if !available {
        return None;
      }
      if key !in storage || storage[key].Corrupt? {
        return None;
      }
      var draft := storage[key].draft;
      if now - draft.lastModified > ExpiryMillis {
        storage := storage - {key};
        return None;
      }
      d := Some(draft);
    }

    /** `saveDraft`: stores the content stamped with the current time. */
    method SaveDraft(scores: seq<CriterionScore>, comment: string)
      modifies this
      ensures storage == if available then old(storage)[key := Entry(Draft(scores, comment, now))] else old(storage)
      ensures now == old(now) && pending == old(pending)
    {
      if available {
        storage := storage[key := Entry(Draft(scores, comment, now))];
      }
    }

    /** `clearDraft`. */
    method ClearDraft()
      modifies this
      ensures storage == if available then old(storage) - {key} else old(storage)
      ensures now == old(now) && pending == old(pending)
    {
      if available {
        storage := storage - {key};
      }
    }

    /** `debouncedSave`: cancels the pending save; clears the draft at once when there is no
        content, and otherwise schedules a single write one second from now. */
    method DebouncedSave(scores: seq<CriterionScore>, comment: string)
      modifies this
      ensures !HasContent(scores, comment) ==>
        pending == None && storage == (if available then old(storage) - {key} else old(storage))
      ensures HasContent(scores, comment) ==>
        pending == Some(PendingWrite(now + DebounceMillis, scores, comment)) && storage == old(storage)
      ensures now == old(now)
    {
      pending := None;
      var hasScores := exists k :: 0 <= k < |scores| && scores[k].score.Some?;
      var hasComment := |Trim(comment)| > 0;
      TrimEmptyIff(comment);
      if !hasScores && !hasComment {
        ClearDraft();
        return;
      }
      pending := Some(PendingWrite(now + DebounceMillis, scores, comment));
    }

    /** The clock moves to `t`; a pending write due by then fires, stamped with its deadline. */
    method Tick(t: int)
      requires t >= now
      modifies this
      ensures now == t
      ensures old(pending).Some? && old(pending).value.deadline <= t ==>
        var w := old(pending).value;
        pending == None
        && storage == (if available then old(storage)[key := Entry(Draft(w.scores, w.comment, w.deadline))] else old(storage))
      ensures !(old(pending).Some? && old(pending).value.deadline <= t) ==>
        pending == old(pending) && storage == old(storage)
    {
      if pending.Some? && pending.value.deadline <= t {
        var w := pending.value;
        pending := None;
        now := w.deadline;
        SaveDraft(w.scores, w.comment);
      }
      now := t;
    }

    /** The unmount cleanup: the pending save is cancelled. */
    method Teardown()
      modifies this
      ensures pending == None && storage == old(storage) && now == old(now)
    {
      pending := None;
    }
  }

  /** Saving and then loading within 24 hours gives back exactly what was saved. */
  method SaveThenLoad(userId: string, reviewId: int, initial: map<string, Stored>, t: int,
                      scores: seq<CriterionScore>, comment: string, later: int)
    returns (loaded: Option<Draft>)
    requires t <= later <= t + ExpiryMillis
    ensures loaded == Some(Draft(scores, comment, t))
  {
    var store := new DraftStore(userId, reviewId, true, initial, t);
    store.SaveDraft(scores, comment);
    store.Tick(later);
    loaded := store.LoadDraft();
    LoadAfterSave(initial, store.key, Draft(scores, comment, t), later);
  }

  /** A burst of two debounced saves writes only the second one's content. */
  method BurstKeepsLast(userId: string, reviewId: int, t: int,
                        s1: seq<CriterionScore>, c1: string, s2: seq<CriterionScore>, c2: string, gap: nat)
    returns (written: Option<Stored>)
    requires HasContent(s1, c1) && HasContent(s2, c2)
    requires gap < DebounceMillis
    ensures written == Some(Entry(Draft(s2, c2, t + gap + DebounceMillis)))
  {
    var store := new DraftStore(userId, reviewId, true, map[], t);
    store.DebouncedSave(s1, c1);
    assert store.storage == map[] && store.pending.Some? && store.pending.value.deadline == t + DebounceMillis;
    store.Tick(t + gap);
    assert store.storage == map[] && store.now == t + gap;
    store.DebouncedSave(s2, c2);
    assert store.pending == Some(PendingWrite(t + gap + DebounceMillis, s2, c2));
    store.Tick(t + gap + DebounceMillis);
    written := if store.key in store.storage then Some(store.storage[store.key]) else None;
  }

  /** After `clearDraft`, `loadDraft` finds nothing. */
  method ClearThenLoad(userId: string, reviewId: int, storageWorks: bool, initial: map<string, Stored>, t: int)
    returns (loaded: Option<Draft>)
    ensures loaded == None
  {
    var store := new DraftStore(userId, reviewId, storageWorks, initial, t);
    store.ClearDraft();
    loaded := store.LoadDraft();
  }

  /** After the cleanup no write happens, however far the clock runs. */
  method TeardownCancels(userId: string, reviewId: int, t: int, scores: seq<CriterionScore>, comment: string,
                         later: int)
    returns (written: bool)
    requires later >= t
    ensures !written
  {
    var store := new DraftStore(userId, reviewId, true, map[], t);
    store.DebouncedSave(scores, comment);
    store.Teardown();
    store.Tick(later);
    written := store.key in store.storage;
  }

  /** A blank form removes a stored draft at once and schedules nothing. */
  method BlankFormClears(userId: string, reviewId: int, initial: map<string, Stored>, t: int,
                         scores: seq<CriterionScore>, comment: string)
    returns (present: bool, scheduled: bool)
    requires forall k :: 0 <= k < |scores| ==> scores[k].score.None?
    requires AllWhitespace(comment)
    ensures !present && !scheduled
  {
    var store := new DraftStore(userId, reviewId, true, initial, t);
    store.DebouncedSave(scores, comment);
    present, scheduled := store.key in store.storage, store.pending.Some?;
  }
}
