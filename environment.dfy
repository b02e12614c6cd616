/** The access list: `WHITELISTED_IDS` parsing in `Environment.__init__`
    (bot.py:116-121) and `TelegramYTDLBot.is_whitelisted` (bot.py:955-962). */
module Environment {
  import opened Wrappers
  import opened Strings

  /** One comma-separated entry: its stripped text when that is all ASCII digits. */
  function EntryId(part: string): Option<nat> {
    var t := Strip(part);
    if t != [] && IsDigits(t) then Some(DigitsValue(t)) else None
  }

  /** The id one entry contributes: none or one. */
  function IdsOf(part: string): seq<int> {
    match EntryId(part)
    case Some(n) => [n]
    case None => []
  }

  /** The ids of the entries that parse, in order; the others are skipped. */
  function ValidIds(parts: seq<string>): seq<int> {
    if parts == [] then [] else IdsOf(parts[0]) + ValidIds(parts[1..])
  }

  /** `env.WHITELISTED_IDS` for the variable's value. */
  function WhitelistIds(whitelistStr: string): seq<int> {
    if Strip(whitelistStr) == [] then [] else ValidIds(Split(whitelistStr, ','))
  }

  lemma IdsOfEntry(part: string)
    ensures var t := Strip(part);
      IdsOf(part) == if t != [] && IsDigits(t) then [DigitsValue(t)] else []
  {
  }

  /** The parsing loop of `Environment.__init__`. */
  method ParseWhitelist(whitelistStr: string) returns (ids: seq<int>)
    ensures ids == WhitelistIds(whitelistStr)
  {
    ids := [];
    if Strip(whitelistStr) != [] {
      var parts := Split(whitelistStr, ',');
      for k := 0 to |parts|
        invariant ids + ValidIds(parts[k..]) == ValidIds(parts)
      {
        var idStr := Strip(parts[k]);
        ghost var before := ids;
        ghost var rest := ValidIds(parts[k + 1..]);
        assert parts[k..][1..] == parts[k + 1..];
        assert ValidIds(parts[k..]) == IdsOf(parts[k]) + rest;
        IdsOfEntry(parts[k]);
        if idStr != [] && IsDigits(idStr) {
          var id := DigitsValue(idStr);
          ids := ids + [id];
          assert IdsOf(parts[k]) == [id];
          assert ids + rest == before + ([id] + rest);
        } else {
          assert IdsOf(parts[k]) == [];
          assert IdsOf(parts[k]) + rest == rest;
        }
      }
    }
  }

  /** `is_whitelisted`: an empty list lets everybody in. */
  predicate IsWhitelisted(ids: seq<int>, userId: int) {
    |ids| == 0 || userId in ids
  }

  /** An id is listed exactly when some entry parses to it. */
  lemma {:induction false} ValidIdsMembers(parts: seq<string>, u: int)
    ensures u in ValidIds(parts) <==> exists k :: 0 <= k < |parts| && EntryId(parts[k]) == Some(u)
  {
    if parts != [] {
      ValidIdsMembers(parts[1..], u);
      if exists k :: 0 <= k < |parts[1..]| && EntryId(parts[1..][k]) == Some(u) {
        var k :| 0 <= k < |parts[1..]| && EntryId(parts[1..][k]) == Some(u);
        assert parts[k + 1] == parts[1..][k];
      }
      if exists k :: 0 <= k < |parts| && EntryId(parts[k]) == Some(u) {
        var k :| 0 <= k < |parts| && EntryId(parts[k]) == Some(u);
        if k > 0 {
          assert parts[1..][k - 1] == parts[k];
        }
      }
    }
  }

  lemma {:induction false} ValidIdsEmpty(parts: seq<string>)
    ensures ValidIds(parts) == [] <==> forall k :: 0 <= k < |parts| ==> EntryId(parts[k]).None?
  {
    if parts != [] {
      ValidIdsEmpty(parts[1..]);
      if forall k :: 0 <= k < |parts[1..]| ==> EntryId(parts[1..][k]).None? {
        if EntryId(parts[0]).None? {
          forall k | 0 <= k < |parts| ensures EntryId(parts[k]).None? {
            if k > 0 {
              assert parts[k] == parts[1..][k - 1];
            }
          }
        }
      } else {
        var k :| 0 <= k < |parts[1..]| && !EntryId(parts[1..][k]).None?;
        assert parts[k + 1] == parts[1..][k];
      }
    }
  }

  lemma {:induction false} SplitOfSpaces(s: string, sep: char)
    requires !IsSpace(sep)
    requires forall i :: 0 <= i < |s| ==> IsSpace(s[i])
    ensures Split(s, sep) == [s]
  {
    if s != [] {
      assert s[0] != sep;
      SplitOfSpaces(s[1..], sep);
      assert [s[0]] + s[1..] == s;
    }
  }

  lemma BlankIsSpaces(s: string)
    requires Strip(s) == []
    ensures forall i :: 0 <= i < |s| ==> IsSpace(s[i])
  {
    StripStartFacts(s);
    StripEndFacts(StripStart(s));
  }

  /** The blank-value guard changes nothing: a blank value has no entry that parses. */
  lemma WhitelistGuardRedundant(whitelistStr: string)
    ensures WhitelistIds(whitelistStr) == ValidIds(Split(whitelistStr, ','))
  {
    var s := whitelistStr;
    if Strip(s) == [] {
      BlankIsSpaces(s);
      SplitOfSpaces(s, ',');
      assert IdsOf(s) == [];
      assert ValidIds([s]) == [] by {
        assert [s][1..] == [];
      }
    }
  }

  /** A user passes exactly when no entry parses or some entry parses to their id. */
  lemma WhitelistAdmits(whitelistStr: string, userId: int)
    ensures var parts := Split(whitelistStr, ',');
      IsWhitelisted(WhitelistIds(whitelistStr), userId) <==>
        (forall k :: 0 <= k < |parts| ==> EntryId(parts[k]).None?) ||
        (exists k :: 0 <= k < |parts| && EntryId(parts[k]) == Some(userId))
  {
    var parts := Split(whitelistStr, ',');
    WhitelistGuardRedundant(whitelistStr);
    ValidIdsEmpty(parts);
    ValidIdsMembers(parts, userId);
  }

  /** `','.join(str(i) for i in ids)` */
  function Render(ids: seq<nat>): (parts: seq<string>)
    ensures |parts| == |ids|
    ensures forall k :: 0 <= k < |parts| ==> parts[k] == NatToString(ids[k])
  {
    if ids == [] then [] else [NatToString(ids[0])] + Render(ids[1..])
  }

  lemma EntryIdOfNumber(n: nat)
    ensures EntryId(NatToString(n)) == Some(n)
  {
    var s := NatToString(n);
    StripKeepsTrimmed(s);
    NatToStringValue(n);
  }

  lemma {:induction false} ValidIdsOfRendered(ids: seq<nat>)
    ensures ValidIds(Render(ids)) == ids
  {
    if ids != [] {
      ValidIdsOfRendered(ids[1..]);
      EntryIdOfNumber(ids[0]);
      assert Render(ids)[1..] == Render(ids[1..]);
    }
  }

  /** Writing a list of ids comma-separated and parsing it gives the list back. */
  lemma WhitelistRoundTrip(ids: seq<nat>)
    ensures WhitelistIds(Join(Render(ids), ',')) == ids
  {
    var parts := Render(ids);
    WhitelistGuardRedundant(Join(parts, ','));
    if ids == [] {
      assert Join(parts, ',') == "";
      assert Split("", ',') == [""];
      assert EntryId("").None?;
      assert ValidIds([""]) == [] by {
        assert [""][1..] == [];
      }
    } else {
      forall k | 0 <= k < |parts| ensures ',' !in parts[k] {
        assert IsDigits(parts[k]);
      }
      SplitJoin(parts, ',');
      ValidIdsOfRendered(ids);
    }
  }
}
