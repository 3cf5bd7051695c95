/**
 * The in-memory preference table of `PreferenceManager`
 * (core/preference_manager.py): an insertion-ordered list of records
 * `{text, source, id}`, appended to, searched by id and filtered by id.
 * The JSON file behind it is not part of this model; only the guard that
 * turns an empty or `{}` file into an empty table is.
 */
module Preferences {
  import opened Wrappers
  import opened Text

  /**
   * What a record's `text` holds. `add_preference` is typed as taking a
   * string, but `ElicitationBot.save_preference` hands it a whole record
   * dict `{id, text, source, timestamp}`, which is then stored as the text.
   */
  datatype Payload =
    | Plain(s: string)
    | SavedRecord(id: string, text: string, source: string, timestamp: string)

  /** One stored preference: `{"text": ..., "source": ..., "id": ...}`. */
  datatype Pref = Pref(text: Payload, source: string, id: string)

  /** The source `add_preference` records when its caller names none. */
  const DefaultSource: string := "manual_chat"

  /** How an f-string shows a record's text: a string as is, a dict as its repr. */
  function Render(t: Payload): string
  {
    match t
    case Plain(s) => s
    case SavedRecord(id, text, source, timestamp) =>
      "{'id': " + Repr(id) + ", 'text': " + Repr(text)
      + ", 'source': " + Repr(source) + ", 'timestamp': " + Repr(timestamp) + "}"
  }

  /** A dict text renders on one line between braces, whatever its fields hold. */
  lemma RenderRecordOneLine(t: Payload)
    requires t.SavedRecord?
    ensures var r := Render(t); '\n' !in r && |r| >= 2 && r[0] == '{' && r[|r| - 1] == '}'
  {
  }

  /** The position of the first record whose id is `id`, or `|ps|` when there is none. */
  function IndexOfId(ps: seq<Pref>, id: string): (i: nat)
    ensures i <= |ps|
    ensures i < |ps| ==> ps[i].id == id
    ensures forall k | 0 <= k < i :: ps[k].id != id
  {
    if ps == [] then 0
    else if ps[0].id == id then 0
    else 1 + IndexOfId(ps[1..], id)
  }

  /** The first record whose id is `id`, if any: what `get_preference_by_id` answers. */
  function Lookup(ps: seq<Pref>, id: string): (r: Option<Pref>)
    ensures r.Some? ==> r.value in ps && r.value.id == id
    ensures r.None? <==> forall k | 0 <= k < |ps| :: ps[k].id != id
  {
    var i := IndexOfId(ps, id);
    if i < |ps| then Some(ps[i]) else None
  }

  /** No two records share an id. */
  predicate UniqueIds(ps: seq<Pref>)
  {
    forall i, j | 0 <= i < j < |ps| :: ps[i].id != ps[j].id
  }

  /**
   * The list comprehension of `delete_preference`: the records whose id is
   * not `id`, in their order.
   */
  function WithoutId(ps: seq<Pref>, id: string): (r: seq<Pref>)
    ensures |r| <= |ps|
    ensures forall k | 0 <= k < |r| :: r[k].id != id
  {
    if ps == [] then []
    else
      var rest := WithoutId(ps[1..], id);
      if ps[0].id == id then rest else [ps[0]] + rest
  }

  /** Every record with the id is gone, and every other record is kept exactly as often as it occurred. */
  lemma {:induction false} WithoutIdCounts(ps: seq<Pref>, id: string)
    ensures forall p :: multiset(WithoutId(ps, id))[p] == if p.id == id then 0 else multiset(ps)[p]
  {
    if ps != [] {
      WithoutIdCounts(ps[1..], id);
      assert ps == [ps[0]] + ps[1..];
      assert multiset(ps) == multiset{ps[0]} + multiset(ps[1..]);
    }
  }

  /** Every kept record comes from the original table. */
  lemma {:induction false} WithoutIdSubset(ps: seq<Pref>, id: string)
    ensures forall k | 0 <= k < |WithoutId(ps, id)| :: WithoutId(ps, id)[k] in ps
  {
    if ps != [] {
      WithoutIdSubset(ps[1..], id);
    }
  }

  /** Filtering works record by record, so the kept records stay in their order. */
  lemma {:induction false} WithoutIdConcat(a: seq<Pref>, b: seq<Pref>, id: string)
    ensures WithoutId(a + b, id) == WithoutId(a, id) + WithoutId(b, id)
  {
    if a != [] {
      assert (a + b)[0] == a[0];
      assert (a + b)[1..] == a[1..] + b;
      WithoutIdConcat(a[1..], b, id);
      var x, y := WithoutId(a[1..], id), WithoutId(b, id);
      if a[0].id != id {
        assert WithoutId(a + b, id) == [a[0]] + (x + y);
        assert WithoutId(a, id) == [a[0]] + x;
        assert [a[0]] + (x + y) == ([a[0]] + x) + y;
      } else {
        assert WithoutId(a + b, id) == x + y;
        assert WithoutId(a, id) == x;
      }
    } else {
      assert a + b == b;
    }
  }

  /** The table gets shorter exactly when some record had the id; when none had it, nothing changes. */
  lemma {:induction false} WithoutIdShrinks(ps: seq<Pref>, id: string)
    ensures |WithoutId(ps, id)| < |ps| <==> IndexOfId(ps, id) < |ps|
    ensures IndexOfId(ps, id) == |ps| ==> WithoutId(ps, id) == ps
  {
    if ps != [] && ps[0].id != id {
      WithoutIdShrinks(ps[1..], id);
    }
  }

  /** After deleting an id, looking it up finds nothing. */
  lemma LookupAfterDelete(ps: seq<Pref>, id: string)
    ensures Lookup(WithoutId(ps, id), id) == None
  {
  }

  /** Deleting one id does not change what any other id looks up. */
  lemma {:induction false} LookupOtherAfterDelete(ps: seq<Pref>, id: string, other: string)
    requires other != id
    ensures Lookup(WithoutId(ps, id), other) == Lookup(ps, other)
  {
    if ps != [] {
      LookupOtherAfterDelete(ps[1..], id, other);
      var rest := WithoutId(ps[1..], id);
      if ps[0].id != id {
        assert WithoutId(ps, id) == [ps[0]] + rest;
        assert ([ps[0]] + rest)[1..] == rest;
      }
    }
  }

  /** Searching after an append: an earlier match wins, else the new record if it matches. */
  lemma {:induction false} IndexOfIdAppend(ps: seq<Pref>, p: Pref, id: string)
    ensures IndexOfId(ps + [p], id) ==
      if IndexOfId(ps, id) < |ps| then IndexOfId(ps, id)
      else if p.id == id then |ps| else |ps| + 1
  {
    if ps != [] {
      assert (ps + [p])[0] == ps[0];
      assert (ps + [p])[1..] == ps[1..] + [p];
      IndexOfIdAppend(ps[1..], p, id);
    }
  }

  /** Appending a record with a fresh id makes it the answer for that id, and changes no other answer. */
  lemma LookupAfterAppend(ps: seq<Pref>, p: Pref, id: string)
    requires IndexOfId(ps, p.id) == |ps|
    ensures Lookup(ps + [p], p.id) == Some(p)
    ensures id != p.id ==> Lookup(ps + [p], id) == Lookup(ps, id)
  {
    IndexOfIdAppend(ps, p, p.id);
    IndexOfIdAppend(ps, p, id);
    var j := IndexOfId(ps, id);
    if j < |ps| {
      assert (ps + [p])[j] == ps[j];
    }
  }

  /** Deleting the id of a freshly appended record undoes the append. */
  lemma AppendThenDelete(ps: seq<Pref>, p: Pref)
    requires IndexOfId(ps, p.id) == |ps|
    ensures WithoutId(ps + [p], p.id) == ps
  {
    WithoutIdConcat(ps, [p], p.id);
    WithoutIdShrinks(ps, p.id);
  }

  /** Appending under a fresh id and deleting keep ids unique; with unique ids a delete removes at most one record. */
  lemma {:induction false} UniqueIdsKept(ps: seq<Pref>, p: Pref, id: string)
    requires UniqueIds(ps)
    ensures IndexOfId(ps, p.id) == |ps| ==> UniqueIds(ps + [p])
    ensures UniqueIds(WithoutId(ps, id))
    ensures |WithoutId(ps, id)| >= |ps| - 1
  {
    if ps != [] {
      var tail := ps[1..];
      assert UniqueIds(tail);
      UniqueIdsKept(tail, p, id);
      var rest := WithoutId(tail, id);
      if ps[0].id != id {
        WithoutIdSubset(tail, id);
        assert forall j | 0 <= j < |rest| :: rest[j].id != ps[0].id;
        assert WithoutId(ps, id) == [ps[0]] + rest;
      } else {
        assert IndexOfId(tail, id) == |tail|;
        WithoutIdShrinks(tail, id);
      }
    }
  }

  /**
   * `_load_preferences` once the file has been read: a missing file, a file
   * that is empty after stripping or exactly `{}`, or a JSON decode error
   * (`decoded == None`) all give the empty table.
   */
  function LoadPreferences(fileExists: bool, content: string, decoded: Option<seq<Pref>>): (r: seq<Pref>)
    ensures !fileExists ==> r == []
    ensures Strip(content) == [] || Strip(content) == "{}" ==> r == []
    ensures decoded == None ==> r == []
    ensures r != [] ==> decoded == Some(r)
    ensures fileExists && Strip(content) != [] && Strip(content) != "{}" && decoded.Some? ==> r == decoded.value
  {
    if !fileExists then []
    else
      var data := Strip(content);
      if data == [] || data == "{}" then []
      else decoded.GetOr([])
  }

  /** A file of whitespace around `{}` loads as the empty table, whatever a parser would say. */
  lemma LoadEmptyObject(pre: string, post: string, decoded: Option<seq<Pref>>)
    requires forall k | 0 <= k < |pre| :: IsSpace(pre[k])
    requires forall k | 0 <= k < |post| :: IsSpace(post[k])
    ensures LoadPreferences(true, pre + "{}" + post, decoded) == []
  {
    StripPadded(pre, "{}", post);
    StripTrimmed("{}");
  }

  class PreferenceManager {
    /** The records, oldest first. */
    var preferences: seq<Pref>

    /** `__init__`, given what `_load_preferences` produced (see `LoadPreferences`). */
    constructor (loaded: seq<Pref>)
      ensures preferences == loaded
    {
      preferences := loaded;
    }

    /**
     * `add_preference`: appends one record carrying the given text and
     * source and the supplied fresh id, and returns that record. It has no
     * timestamp field. Ids stay unique when `freshId` is unused.
     */
    method AddPreference(text: Payload, freshId: string, source: string := DefaultSource) returns (p: Pref)
      modifies this
      ensures p == Pref(text, source, freshId)
      ensures preferences == old(preferences) + [p]
      ensures IndexOfId(old(preferences), freshId) == |old(preferences)| ==> Lookup(preferences, freshId) == Some(p)
      ensures UniqueIds(old(preferences)) && IndexOfId(old(preferences), freshId) == |old(preferences)| ==> UniqueIds(preferences)
    {
      p := Pref(text, source, freshId);
      ghost var before := preferences;
      preferences := preferences + [p];
      if IndexOfId(before, freshId) == |before| {
        LookupAfterAppend(before, p, freshId);
        if UniqueIds(before) {
          UniqueIdsKept(before, p, freshId);
        }
      }
    }

    /** `get_preferences`: the stored list itself. */
    method GetPreferences() returns (ps: seq<Pref>)
      ensures ps == preferences
    {
      ps := preferences;
    }

    /** `get_preference_by_id`: a linear search that returns the first record with the id, or None. */
    method GetPreferenceById(id: string) returns (r: Option<Pref>)
      ensures r == Lookup(preferences, id)
      ensures r.None? <==> forall k | 0 <= k < |preferences| :: preferences[k].id != id
      ensures r.Some? ==> r.value in preferences && r.value.id == id
    {
      var i := 0;
      while i < |preferences|
        invariant 0 <= i <= |preferences|
        invariant forall k | 0 <= k < i :: preferences[k].id != id
      {
        if preferences[i].id == id {
          return Some(preferences[i]);
        }
        i := i + 1;
      }
      return None;
    }

    /**
     * `delete_preference`: drops every record with the id, keeping the
     * others in order, and reports whether the list got shorter, which is
     * exactly whether some record had the id.
     */
    method DeletePreference(id: string) returns (removed: bool)
      modifies this
      ensures preferences == WithoutId(old(preferences), id)
      ensures removed <==> |preferences| < |old(preferences)|
      ensures removed <==> IndexOfId(old(preferences), id) < |old(preferences)|
      ensures !removed ==> preferences == old(preferences)
      ensures Lookup(preferences, id) == None
    {
      var initialLength := |preferences|;
      WithoutIdShrinks(preferences, id);
      preferences := WithoutId(preferences, id);
      removed := |preferences| < initialLength;
    }
  }
}
