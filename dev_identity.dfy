/** The development "current user" kept in the browser's local storage under several legacy keys.
    Local storage is a map from keys to string values; `getItem` of a missing key is `null`. */
module DevIdentity {
  import opened Base

  const CurrentUserKey: string := "dev.currentUserId"
  const LegacyUserKey: string := "x-user-id"

  /** The keys `getUserId` consults, in order of precedence. */
  const DevUserKeys: seq<string> := [CurrentUserKey, LegacyUserKey, "ng_current_user_id", "ngUserEmail"]

  /** `getItem(key)` is falsy: the key is missing or holds the empty string. */
  predicate Unset(items: map<string, string>, key: string) {
    key !in items || items[key] == ""
  }

  /** The value of the first key of `keys` that is set, if any. */
  function FirstSet(items: map<string, string>, keys: seq<string>): (r: Option<string>)
    ensures r.None? <==> forall i :: 0 <= i < |keys| ==> Unset(items, keys[i])
    ensures r.Some? ==> exists i :: 0 <= i < |keys| && !Unset(items, keys[i]) && items[keys[i]] == r.value
                                    && forall j :: 0 <= j < i ==> Unset(items, keys[j])
  {
    if keys == [] then None
    else if !Unset(items, keys[0]) then Some(items[keys[0]])
    else
      var r := FirstSet(items, keys[1..]);
      assert r.Some? ==> exists i :: 0 <= i < |keys| && !Unset(items, keys[i]) && items[keys[i]] == r.value
                                     && forall j :: 0 <= j < i ==> Unset(items, keys[j]) by {
        if r.Some? {
          var i :| 0 <= i < |keys[1..]| && !Unset(items, keys[1..][i]) && items[keys[1..][i]] == r.value
                   && forall j :: 0 <= j < i ==> Unset(items, keys[1..][j]);
          assert !Unset(items, keys[i + 1]) && forall j :: 0 <= j < i + 1 ==> Unset(items, keys[j]);
        }
      }
      r
  }

  /** The storage after `setUserId(userId)`: a non-empty id is written under the two current keys,
      a missing or empty one removes all four keys. */
  function Stored(items: map<string, string>, userId: Option<string>): map<string, string>
  {
    if userId.None? || userId.value == "" then items - set k | k in DevUserKeys
    else items[CurrentUserKey := userId.value][LegacyUserKey := userId.value]
  }

  /** The browser's local storage. */
  class DevStorage {
    var items: map<string, string>

    constructor (initial: map<string, string>)
      ensures items == initial
    {
      items := initial;
    }

    /** `setUserId(userId)`. */
    method SetUserId(userId: Option<string>)
      modifies this
      ensures items == Stored(old(items), userId)
    {
      if userId.None? || userId.value == "" {
        for i := 0 to |DevUserKeys|
          invariant items == old(items) - set j | 0 <= j < i :: DevUserKeys[j]
        {
          items := items - {DevUserKeys[i]};
        }
        assert (set j | 0 <= j < |DevUserKeys| :: DevUserKeys[j]) == set k | k in DevUserKeys;
      } else {
        items := items[CurrentUserKey := userId.value];
        items := items[LegacyUserKey := userId.value];
      }
    }

    /** `getUserId()`: the first non-empty value under the four keys, in order. */
    method GetUserId() returns (r: Option<string>)
      ensures r == FirstSet(items, DevUserKeys)
    {
      var i := 0;
      while i < |DevUserKeys|
        invariant 0 <= i <= |DevUserKeys|
        invariant FirstSet(items, DevUserKeys[i..]) == FirstSet(items, DevUserKeys)
      {
        var key := DevUserKeys[i];
        if key in items && items[key] != "" {
          return Some(items[key]);
        }
        assert DevUserKeys[i..][1..] == DevUserKeys[i + 1..];
        i := i + 1;
      }
      return None;
    }
  }

  /** Round trip: after `setUserId(id)`, `getUserId()` gives back `id` when it is non-empty and
      `null` when it is missing or empty. */
  lemma SetThenGet(items: map<string, string>, userId: Option<string>)
    ensures FirstSet(Stored(items, userId), DevUserKeys)
            == if userId.None? || userId.value == "" then None else userId
  {
    var after := Stored(items, userId);
    if userId.None? || userId.value == "" {
      forall i | 0 <= i < |DevUserKeys| ensures Unset(after, DevUserKeys[i]) {
        assert DevUserKeys[i] in DevUserKeys;
      }
    } else {
      assert !Unset(after, DevUserKeys[0]);
    }
  }

  /** `setUserId` touches no key other than the four identity keys, and with a non-empty id
      writes exactly the two current keys. */
  lemma SetUserIdFrame(items: map<string, string>, userId: Option<string>)
    ensures forall k :: k !in DevUserKeys ==>
              (k in Stored(items, userId) <==> k in items)
              && (k in items ==> Stored(items, userId)[k] == items[k])
    ensures userId.Some? && userId.value != "" ==>
              Stored(items, userId).Keys == items.Keys + {CurrentUserKey, LegacyUserKey}
              && forall k :: k in items && k != CurrentUserKey && k != LegacyUserKey ==>
                   Stored(items, userId)[k] == items[k]
  {
  }

  /** The home page first writes the id under `dev.currentUserId` and then calls `setUserId` with it;
      the first write makes no difference to the storage that results. */
  lemma PageSyncIsSetUserId(items: map<string, string>, userId: string)
    ensures Stored(items[CurrentUserKey := userId], Some(userId)) == Stored(items, Some(userId))
  {
    if userId == "" {
      var ks := set k | k in DevUserKeys;
      assert CurrentUserKey in ks;
      assert items[CurrentUserKey := userId] - ks == items - ks;
    }
  }
}
