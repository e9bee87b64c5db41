/**
 * The two structures of the quick-selection window, as values: the visible
 * list of nicknames (the list widget) and the dictionary from nickname to
 * captured selection. This module states when they agree and what capture
 * and discard do to that agreement.
 */
module Registry {
  import opened Formatting

  /** The selection dictionary: nickname to the captured elements. */
  type Store = map<string, seq<Element>>

  /** The list with its entry at index i taken out. */
  function RemoveAt<T>(s: seq<T>, i: nat): (r: seq<T>)
    requires i < |s|
    ensures |r| == |s| - 1
    ensures forall j :: 0 <= j < i ==> r[j] == s[j]
    ensures forall j :: i <= j < |r| ==> r[j] == s[j + 1]
  {
    s[..i] + s[i + 1..]
  }

  predicate NoDuplicates(names: seq<string>)
  {
    forall i, j :: 0 <= i < j < |names| ==> names[i] != names[j]
  }

  /** Every list entry names a stored selection and every stored nickname is listed. */
  predicate SameNames(names: seq<string>, store: Store)
  {
    (forall i :: 0 <= i < |names| ==> names[i] in store) &&
    (forall k :: k in store ==> k in names)
  }

  /** The list and the dictionary agree: the same names, each listed once. */
  predicate Synced(names: seq<string>, store: Store)
  {
    NoDuplicates(names) && SameNames(names, store)
  }

  /** In agreement, list and dictionary hold equally many names. */
  lemma {:induction false} SyncedSizes(names: seq<string>, store: Store)
    requires Synced(names, store)
    ensures |names| == |store|
  {
    if names != [] {
      var last := |names| - 1;
      var rest := names[..last];
      assert names == rest + [names[last]];
      forall k | k in store - {names[last]} ensures k in rest {
        var i :| 0 <= i < |names| && names[i] == k;
        assert i != last;
        assert rest[i] == k;
      }
      SyncedSizes(rest, store - {names[last]});
    }
  }

  /** A capture keeps the name sets equal, whether or not the nickname collides. */
  lemma CaptureKeepsNames(names: seq<string>, store: Store, nick: string, selection: seq<Element>)
    requires SameNames(names, store)
    ensures SameNames(names + [nick], store[nick := selection])
  {
  }

  /** A capture under a fresh nickname keeps list and dictionary in agreement. */
  lemma CaptureKeepsSynced(names: seq<string>, store: Store, nick: string, selection: seq<Element>)
    requires Synced(names, store) && nick !in store
    ensures Synced(names + [nick], store[nick := selection])
  {
  }

  /**
   * A capture under a nickname that is already stored overwrites the stored
   * selection but lists the nickname a second time: agreement is lost.
   */
  lemma CaptureCollisionDuplicates(names: seq<string>, store: Store, nick: string, selection: seq<Element>)
    requires Synced(names, store) && nick in store
    ensures exists i :: 0 <= i < |names| && (names + [nick])[i] == nick
    ensures !NoDuplicates(names + [nick])
    ensures |store[nick := selection]| == |store|
  {
    var i :| 0 <= i < |names| && names[i] == nick;
    var after := names + [nick];
    assert after[i] == nick && after[|names|] == nick;
  }

  /** A discard of a listed entry keeps list and dictionary in agreement. */
  lemma DiscardKeepsSynced(names: seq<string>, store: Store, i: nat)
    requires Synced(names, store) && i < |names|
    ensures Synced(RemoveAt(names, i), store - {names[i]})
  {
  }

  /**
   * Once a nickname is listed twice, discarding one copy deletes the key and
   * leaves the other copy naming nothing in the dictionary.
   */
  lemma DiscardOfDuplicateDangles(names: seq<string>, store: Store, i: nat, j: nat)
    requires i < |names| && j < |names| && i != j && names[i] == names[j]
    ensures var k := if j < i then j else j - 1;
      k < |RemoveAt(names, i)| && RemoveAt(names, i)[k] == names[i] && names[i] !in store - {names[i]}
    ensures !SameNames(RemoveAt(names, i), store - {names[i]})
  {
  }

  /** Capture followed by discard of the new (last) entry restores both structures. */
  lemma CaptureThenDiscardRestores(names: seq<string>, store: Store, nick: string, selection: seq<Element>)
    requires nick !in store
    ensures RemoveAt(names + [nick], |names|) == names
    ensures store[nick := selection] - {nick} == store
  {
  }

  /** With a colliding nickname the same round trip loses the earlier capture. */
  lemma CollidingCaptureThenDiscardLoses(store: Store, nick: string, selection: seq<Element>)
    requires nick in store
    ensures store[nick := selection] - {nick} == store - {nick}
    ensures store[nick := selection] - {nick} != store
  {
  }
}
