/** `UserPreferences` (bot.py:263-293): per-user settings keyed by `str(user_id)`. */
module Preferences {
  import opened Wrappers
  import opened Strings
  import opened NestedMaps

  /** The preferences document: `str(user_id)` to key to value. */
  type Document = map<string, map<string, string>>

  /** `get_user_preference(user_id, key, default)` on a document. */
  function Lookup(prefs: Document, userId: int, key: string, default: Option<string>): Option<string> {
    match Get(prefs, IntToString(userId), key)
    case Some(v) => Some(v)
    case None => default
  }

  /** The document after `set_user_preference(user_id, key, value)`. */
  function Store(prefs: Document, userId: int, key: string, value: string): Document {
    Put(prefs, IntToString(userId), key, value)
  }

  /** Reading a preference back after setting it gives the value set, whatever the default. */
  lemma LookupAfterStore(prefs: Document, userId: int, key: string, value: string, default: Option<string>)
    ensures Lookup(Store(prefs, userId, key, value), userId, key, default) == Some(value)
  {
  }

  /** Setting one user's preference leaves every other user's and key's value alone. */
  lemma LookupOtherAfterStore(prefs: Document, userId: int, key: string, value: string,
                              otherUser: int, otherKey: string, default: Option<string>)
    requires otherUser != userId || otherKey != key
    ensures Lookup(Store(prefs, userId, key, value), otherUser, otherKey, default) ==
            Lookup(prefs, otherUser, otherKey, default)
  {
    if IntToString(otherUser) == IntToString(userId) {
      IntToStringInjective(otherUser, userId);
    }
  }

  /** A user or key never set reads as the default. */
  lemma LookupMissing(prefs: Document, userId: int, key: string, default: Option<string>)
    requires IntToString(userId) !in prefs || key !in prefs[IntToString(userId)]
    ensures Lookup(prefs, userId, key, default) == default
  {
  }

  class UserPreferences {
    /** `self.preferences`, as last loaded or updated. */
    var preferences: Document

    /** Starts from the loaded document (`{}` when the file does not exist). */
    constructor (loaded: Document)
      ensures preferences == loaded
    {
      preferences := loaded;
    }

    function GetUserPreference(userId: int, key: string, default: Option<string>): Option<string>
      reads this
    {
      Lookup(preferences, userId, key, default)
    }

    /** `set_user_preference`; the file save that follows is not modelled. */
    method SetUserPreference(userId: int, key: string, value: string)
      modifies this
      ensures preferences == Store(old(preferences), userId, key, value)
      ensures GetUserPreference(userId, key, None) == Some(value)
    {
      var userIdStr := IntToString(userId);
      if userIdStr !in preferences {
        preferences := preferences[userIdStr := map[]];
      }
      preferences := preferences[userIdStr := preferences[userIdStr][key := value]];
    }
  }
}
