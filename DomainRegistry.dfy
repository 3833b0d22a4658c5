/**
 * `DomainList` (static/script.js): the registry of monitored domains, kept
 * both as a dictionary from name to item and as a sorted list of names, with
 * the request workflow (`state`), the feedback banner and the search filter.
 *
 * Requests to the server are recorded in the ghost log `requests`; their
 * answers are the arguments of `SetRemoteDomains` and `ServerResponseControl`,
 * already run through `JSON.parse` (`None` when that throws).
 */
module DomainRegistry {
  import opened Wrappers
  import opened Strings
  import opened JsonValue
  import opened DomainItem

  /** The browser's `RegExp`: which search texts compile, and which labels a compiled search matches. */
  datatype RegexEngine = RegexEngine(compiles: string -> bool, matches: (string, string) -> bool)

  datatype Request = ListingRequest | AddRequest(domain: string)

  /** The `shown/counted` text of the domain counter. */
  datatype Counter = Counter(shown: nat, counted: nat)

  const EnterKey: int := 13

  // ------------------------------------------------------------------
  // Sorted name lists.

  /** Ascending under `Less`, duplicates allowed: what the binary search needs. */
  ghost predicate Sorted(s: seq<string>)
  {
    forall i, j :: 0 <= i < j < |s| ==> !Less(s[j], s[i])
  }

  lemma StrictlySortedIsSorted(s: seq<string>)
    requires StrictlySorted(s)
    ensures Sorted(s)
    ensures forall i, j :: 0 <= i < j < |s| ==> s[i] != s[j]
  {
    forall i, j | 0 <= i < j < |s|
      ensures !Less(s[j], s[i]) && s[i] != s[j]
    {
      assert AscendingAt(s, i, j);
      LessAsymmetric(s[i], s[j]);
    }
  }

  /** Splicing `x` in at a position that separates the smaller names from the larger keeps the list strictly sorted. */
  lemma InsertKeepsSorted(s: seq<string>, i: nat, x: string)
    requires StrictlySorted(s) && i <= |s|
    requires forall k :: 0 <= k < i ==> Less(s[k], x)
    requires forall k :: i <= k < |s| ==> Less(x, s[k])
    ensures StrictlySorted(s[..i] + [x] + s[i..])
  {
    var t := s[..i] + [x] + s[i..];
    forall a, b | 0 <= a < b < |t|
      ensures AscendingAt(t, a, b)
    {
      if a < i && b == i {
      } else if a == i {
        assert t[b] == s[b - 1];
      } else if b < i {
        assert AscendingAt(s, a, b);
      } else if a < i {
        assert t[b] == s[b - 1];
        LessTransitive(s[a], x, s[b - 1]);
      } else {
        assert t[a] == s[a - 1] && t[b] == s[b - 1];
        assert AscendingAt(s, a - 1, b - 1);
      }
    }
  }

  /** A duplicate-free list of names and the key set it enumerates have the same size. */
  lemma {:induction false} DistinctCount(s: seq<string>, keys: set<string>)
    requires forall i, j :: 0 <= i < j < |s| ==> s[i] != s[j]
    requires forall i :: 0 <= i < |s| ==> s[i] in keys
    requires forall n :: n in keys ==> n in s
    ensures |keys| == |s|
  {
    if s != [] {
      var last := s[|s| - 1];
      var init := s[..|s| - 1];
      forall n | n in keys - {last}
        ensures n in init
      {
        var k :| 0 <= k < |s| && s[k] == n;
        assert k < |s| - 1;
        assert init[k] == n;
      }
      DistinctCount(init, keys - {last});
    }
  }

  /** The reference insertion of `x` into an ascending list: before the first name that exceeds it. */
  function SortedInsert(s: seq<string>, x: string): seq<string>
  {
    if s == [] then [x]
    else if Less(x, s[0]) then [x] + s
    else [s[0]] + SortedInsert(s[1..], x)
  }

  /** Splicing `x` in between the names that do not exceed it and those that do is the reference insertion. */
  lemma {:induction false} SpliceIsSortedInsert(s: seq<string>, x: string, i: nat)
    requires i <= |s|
    requires forall k :: 0 <= k < i ==> !Less(x, s[k])
    requires forall k :: i <= k < |s| ==> Less(x, s[k])
    ensures s[..i] + [x] + s[i..] == SortedInsert(s, x)
  {
    if i == 0 {
      assert s[i..] == s;
    } else {
      SpliceIsSortedInsert(s[1..], x, i - 1);
      assert s[..i] + [x] + s[i..] == [s[0]] + (s[1..][..i - 1] + [x] + s[1..][i - 1..]);
    }
  }

  // ------------------------------------------------------------------
  // The search filter.

  /** The text the search filters on: the root domain's own name, otherwise the name's group 2. */
  function SearchLabel(name: string): Option<string>
  {
    if name == "ed.ac.uk" then Some("ed.ac.uk")
    else match Subdomain(name)
      case Matched(g) => g
      case NoMatch => None
  }

  /** Every name with a search label is one the pattern accepts, so `show` really shows it. */
  lemma LabelledAreMatched(name: string)
    requires SearchLabel(name).Some?
    ensures Subdomain(name).Matched?
  {
    if name == "ed.ac.uk" {
      assert name[|name| - |Suffix|..] == name;
    }
  }

  /**
   * The visibility flag of an entry with search label `tag` after one search
   * pass, given the flag `before` it; `rejected` says `show` is really `hide`.
   */
  function SearchedFlag(engine: RegexEngine, search: string, tag: Option<string>, rejected: bool, before: bool): bool
  {
    if search == "" then rejected
    else if !engine.compiles(search) then before
    else match tag
      case None => before
      case Some(l) => if engine.matches(search, l) then rejected else true
  }

  /** The visibility flag of entry `name` after one search pass. */
  function SearchedHidden(engine: RegexEngine, search: string, name: string, before: bool): bool
  {
    SearchedFlag(engine, search, SearchLabel(name), Subdomain(name).NoMatch?, before)
  }

  /**
   * What a search does to one entry: an empty search shows every entry the
   * pattern accepts; a search that does not compile, and entries with no label,
   * are left alone; any other entry ends up shown iff its label matches.
   */
  lemma SearchedHiddenMeaning(engine: RegexEngine, search: string, name: string, before: bool)
    ensures search == "" ==> SearchedHidden(engine, search, name, before) == Subdomain(name).NoMatch?
    ensures search != "" && (!engine.compiles(search) || SearchLabel(name).None?) ==>
              SearchedHidden(engine, search, name, before) == before
    ensures search != "" && engine.compiles(search) && SearchLabel(name).Some? ==>
              SearchedHidden(engine, search, name, before) == !engine.matches(search, SearchLabel(name).value)
  {
    if SearchLabel(name).Some? {
      LabelledAreMatched(name);
    }
  }

  /** Searching twice with the same text is searching once. */
  lemma SearchedHiddenIdempotent(engine: RegexEngine, search: string, name: string, before: bool)
    ensures SearchedHidden(engine, search, name, SearchedHidden(engine, search, name, before))
            == SearchedHidden(engine, search, name, before)
  {
  }

  /** The search labels of a list of names. */
  function LabelsOf(names: seq<string>): (tags: seq<Option<string>>)
    ensures |tags| == |names| && forall k :: 0 <= k < |names| ==> tags[k] == SearchLabel(names[k])
  {
    seq(|names|, k requires 0 <= k < |names| => SearchLabel(names[k]))
  }

  /** How many entries with these labels the search counts: those with a label. */
  function Counted(tags: seq<Option<string>>): (r: nat)
    ensures r <= |tags|
  {
    if tags == [] then 0
    else Counted(tags[..|tags| - 1]) + (if tags[|tags| - 1].Some? then 1 else 0)
  }

  /** How many of them the search shows: those whose label it matches. */
  function Shown(engine: RegexEngine, search: string, tags: seq<Option<string>>): nat
  {
    if tags == [] then 0
    else
      var tag := tags[|tags| - 1];
      Shown(engine, search, tags[..|tags| - 1]) + (if tag.Some? && engine.matches(search, tag.value) then 1 else 0)
  }

  lemma {:induction false} ShownWithinCounted(engine: RegexEngine, search: string, tags: seq<Option<string>>)
    ensures Shown(engine, search, tags) <= Counted(tags) <= |tags|
  {
    if tags != [] {
      ShownWithinCounted(engine, search, tags[..|tags| - 1]);
    }
  }

  /** Counting one more entry. */
  lemma CountStep(engine: RegexEngine, search: string, tags: seq<Option<string>>, i: nat)
    requires i < |tags|
    ensures Counted(tags[..i + 1]) == Counted(tags[..i]) + (if tags[i].Some? then 1 else 0)
    ensures Shown(engine, search, tags[..i + 1]) == Shown(engine, search, tags[..i])
              + (if tags[i].Some? && engine.matches(search, tags[i].value) then 1 else 0)
  {
    assert tags[..i + 1][..i] == tags[..i];
  }

  /** The counter after a search pass over entries with labels `tags`; a search that does not compile leaves the old one. */
  function SearchCounter(engine: RegexEngine, search: string, tags: seq<Option<string>>, previous: Option<Counter>): Option<Counter>
  {
    if search == "" then Some(Counter(|tags|, |tags|))
    else if !engine.compiles(search) then previous
    else Some(Counter(Shown(engine, search, tags), Counted(tags)))
  }

  // ------------------------------------------------------------------
  // Server answers, already parsed.

  /** A listing `setRemoteDomains` processes without a type error inside the loop. */
  predicate ListingShape(reply: Option<Json>)
  {
    reply.Some? ==>
      match reply.value
      case Array(items) => forall j :: j in items ==> IsRecord(j)
      case Str(t) => t == ""
      case Object(fields) => "length" !in fields
      case _ => true
  }

  /** `resJson.length` is read without throwing: anything parsed but `null`. */
  predicate ListingParsed(reply: Option<Json>)
  {
    reply.Some? && !reply.value.Null?
  }

  /** The records the loop visits: an array's elements; anything else has no `length`. */
  function ListingItems(reply: Option<Json>): seq<Json>
  {
    if reply.Some? && reply.value.Array? then reply.value.items else []
  }

  function NamesOf(records: seq<Json>): set<string>
    requires forall j :: j in records ==> IsRecord(j)
  {
    set j | j in records :: NameOf(j)
  }

  lemma NamesOfStep(records: seq<Json>, i: nat)
    requires i < |records| && forall j :: j in records ==> IsRecord(j)
    ensures NamesOf(records[..i + 1]) == NamesOf(records[..i]) + {NameOf(records[i])}
  {
    assert records[..i + 1] == records[..i] + [records[i]];
  }

  /** An answer of the add endpoint: `null`, or an object with a numeric code and, for code 0, the new record. */
  predicate AddReplyShape(reply: Option<Json>)
  {
    reply.Some? ==>
      || reply.value.Null?
      || (&& reply.value.Object?
          && "state" in reply.value.fields && reply.value.fields["state"].Number?
          && (reply.value.fields["state"].n == 0 ==>
                "data" in reply.value.fields && IsRecord(reply.value.fields["data"])))
  }

  /** `resJson.state` is read without throwing. */
  predicate AddReplyParsed(reply: Option<Json>)
  {
    reply.Some? && reply.value.Object?
  }

  function AddReplyCode(reply: Option<Json>): int
    requires AddReplyShape(reply) && AddReplyParsed(reply)
  {
    reply.value.fields["state"].n
  }

  /** The record an answer with code 0 carries. */
  function AddReplyData(reply: Option<Json>): (record: Json)
    requires AddReplyShape(reply) && AddReplyParsed(reply) && AddReplyCode(reply) == 0
    ensures IsRecord(record)
  {
    reply.value.fields["data"]
  }

  // ------------------------------------------------------------------

  /** What the registry knows about the item stored under `name`. */
  ghost predicate ItemFor(name: string, item: DomainListItem)
  {
    && item.domain == name
    && item.Valid()
  }

  /** The item and its three properties lie inside `repr`. */
  ghost predicate Owned(item: DomainListItem, repr: set<object>)
  {
    item in repr && item.dns in repr && item.ping in repr && item.http in repr
  }

  /**
   * The registry's invariant: the list is sorted and enumerates exactly the
   * keys, and every item belongs to its key and lies inside `repr`; items
   * under different keys are different objects, since each carries its key.
   */
  ghost predicate Registry(entries: map<string, DomainListItem>, ordered: seq<string>, repr: set<object>)
  {
    && StrictlySorted(ordered)
    && (forall i :: 0 <= i < |ordered| ==> ordered[i] in entries)
    && (forall n :: n in entries ==> n in ordered)
    && (forall n :: n in entries ==> ItemFor(n, entries[n]) && Owned(entries[n], repr))
  }

  /** `after` is `before` plus items for `names`: known names keep their items, new ones take theirs from `pool`. */
  ghost predicate Grown(before: map<string, DomainListItem>, after: map<string, DomainListItem>, names: set<string>, pool: set<object>)
  {
    && after.Keys == before.Keys + names
    && (forall n :: n in before ==> after[n] == before[n])
    && (forall n :: n in after && n !in before ==> after[n] in pool)
  }

  /** Two growth steps make one. */
  lemma GrownStep(a: map<string, DomainListItem>, b: map<string, DomainListItem>, c: map<string, DomainListItem>,
                  s: set<string>, t: set<string>, p: set<object>, q: set<object>)
    requires Grown(a, b, s, p) && Grown(b, c, t, q)
    ensures Grown(a, c, s + t, p + q)
  {
  }

  /** Every name in `ordered` is a key of `entries`, and different positions hold different items. */
  ghost predicate Listed(entries: map<string, DomainListItem>, ordered: seq<string>)
  {
    && (forall k :: 0 <= k < |ordered| ==> ordered[k] in entries)
    && (forall j, k :: 0 <= j < |ordered| && 0 <= k < |ordered| && j != k ==> entries[ordered[j]] != entries[ordered[k]])
  }

  /** `ordered` lists exactly the keys of `entries`, whose items belong to their keys and are distinct objects. */
  ghost predicate Enumerates(entries: map<string, DomainListItem>, ordered: seq<string>)
  {
    && Listed(entries, ordered)
    && (forall k :: 0 <= k < |ordered| ==> ItemFor(ordered[k], entries[ordered[k]]))
    && (forall n :: n in entries ==> n in ordered)
  }

  /** The search labels the items listed in `ordered` carry. */
  function TagsOf(entries: map<string, DomainListItem>, ordered: seq<string>): (tags: seq<Option<string>>)
    requires forall k :: 0 <= k < |ordered| ==> ordered[k] in entries
    ensures |tags| == |ordered| && forall k :: 0 <= k < |ordered| ==> tags[k] == entries[ordered[k]].Tag()
  {
    seq(|ordered|, k requires 0 <= k < |ordered| => entries[ordered[k]].Tag())
  }

  /** The labels the items carry are the search labels of the names they are stored under. */
  lemma TagsAreLabels(entries: map<string, DomainListItem>, ordered: seq<string>)
    requires forall k :: 0 <= k < |ordered| ==>
               ordered[k] in entries && entries[ordered[k]].domain == ordered[k] && entries[ordered[k]].Classified()
    ensures TagsOf(entries, ordered) == LabelsOf(ordered)
  {
  }

  /** The visibility flag of `item` after one search pass, given the flag `before` it. */
  function SearchedItem(engine: RegexEngine, search: string, item: DomainListItem, before: bool): bool
  {
    SearchedFlag(engine, search, item.Tag(), item.showHides, before)
  }

  /** An empty search, or a search that compiles over a labelled item, sets the flag whatever it was before. */
  lemma SearchSettles(engine: RegexEngine, search: string, item: DomainListItem, before: bool)
    requires search == "" || (engine.compiles(search) && item.Tag().Some?)
    ensures SearchedItem(engine, search, item, before) == SearchedItem(engine, search, item, false)
  {
  }

  /** What a search does to an item is what it does to the name the item carries. */
  lemma SearchedItemIsSearchedHidden(engine: RegexEngine, search: string, item: DomainListItem, before: bool)
    requires item.Classified()
    ensures SearchedItem(engine, search, item, before) == SearchedHidden(engine, search, item.domain, before)
  {
  }

  /** One step of a search loop: the entry's visibility, and whether it is counted and shown. */
  method SearchEntry(item: DomainListItem, engine: RegexEngine, search: string) returns (counted: nat, shown: nat)
    requires search == "" || engine.compiles(search)
    modifies item`hidden
    ensures item.hidden == SearchedFlag(engine, search, item.Tag(), item.showHides, old(item.hidden))
    ensures search == "" ==> counted == 1 && shown == 1
    ensures search != "" ==> counted == (if item.Tag().Some? then 1 else 0)
    ensures search != "" ==> shown == (if item.Tag().Some? && engine.matches(search, item.Tag().value) then 1 else 0)
  {
    if search == "" {
      item.Show();
      counted, shown := 1, 1;
    } else {
      var tag := if item.domain == "ed.ac.uk" then Some("ed.ac.uk") else item.subdomain;
      counted, shown := 0, 0;
      if tag.Some? {
        if engine.matches(search, tag.value) {
          item.Show();
          shown := 1;
        } else {
          item.Hide();
        }
        counted := 1;
      }
    }
  }

  /** The loop of an empty search: every entry gets `show()` and is counted as shown. */
  method ShowAllPass(entries: map<string, DomainListItem>, ordered: seq<string>, engine: RegexEngine)
    returns (entriesExist: nat, entriesShown: nat)
    requires Listed(entries, ordered)
    modifies entries.Values`hidden
    ensures entriesExist == |ordered| && entriesShown == |ordered|
    ensures forall k :: 0 <= k < |ordered| ==> entries[ordered[k]].hidden == entries[ordered[k]].showHides
  {
    entriesExist, entriesShown := 0, 0;
    var i := 0;
    while i < |ordered|
      invariant 0 <= i <= |ordered|
      invariant entriesExist == i && entriesShown == i
      invariant forall k :: 0 <= k < i ==> entries[ordered[k]].hidden == entries[ordered[k]].showHides
    {
      var item := entries[ordered[i]];
      label Step:
      var counted, shown := SearchEntry(item, engine, "");
      forall k | 0 <= k < i
        ensures entries[ordered[k]].hidden == old@Step(entries[ordered[k]].hidden)
      {
        assert entries[ordered[k]] != item;
      }
      entriesExist, entriesShown := entriesExist + counted, entriesShown + shown;
      i := i + 1;
    }
  }

  /** The loop of a search that compiles: entries with a label are shown or hidden and counted, the rest skipped. */
  method FilterPass(entries: map<string, DomainListItem>, ordered: seq<string>, engine: RegexEngine, search: string)
    returns (entriesExist: nat, entriesShown: nat)
    requires Listed(entries, ordered) && search != "" && engine.compiles(search)
    modifies entries.Values`hidden
    ensures entriesExist == Counted(TagsOf(entries, ordered))
    ensures entriesShown == Shown(engine, search, TagsOf(entries, ordered))
    ensures forall k :: 0 <= k < |ordered| ==>
              var item := entries[ordered[k]];
              item.hidden == SearchedFlag(engine, search, item.Tag(), item.showHides, old(item.hidden))
  {
    ghost var tags := TagsOf(entries, ordered);
    entriesExist, entriesShown := 0, 0;
    var i := 0;
    while i < |ordered|
      invariant 0 <= i <= |ordered|
      invariant entriesExist == Counted(tags[..i])
      invariant entriesShown == Shown(engine, search, tags[..i])
      invariant forall k :: 0 <= k < i ==>
        var item := entries[ordered[k]];
        item.hidden == SearchedFlag(engine, search, item.Tag(), item.showHides, old(item.hidden))
      invariant forall k :: i <= k < |ordered| ==> entries[ordered[k]].hidden == old(entries[ordered[k]].hidden)
    {
      CountStep(engine, search, tags, i);
      var item := entries[ordered[i]];
      label Step:
      var counted, shown := SearchEntry(item, engine, search);
      forall k | 0 <= k < |ordered| && k != i
        ensures entries[ordered[k]].hidden == old@Step(entries[ordered[k]].hidden)
      {
        assert entries[ordered[k]] != item;
      }
      entriesExist, entriesShown := entriesExist + counted, entriesShown + shown;
      i := i + 1;
    }
    assert tags[..i] == tags;
  }

  /** Splicing a new name in between the smaller and the larger names keeps a sorted enumeration of `keys` one. */
  lemma OrderedInsert(keys: set<string>, ordered: seq<string>, name: string, i: nat)
    requires StrictlySorted(ordered) && i <= |ordered| && name !in keys
    requires forall k :: 0 <= k < |ordered| ==> ordered[k] in keys
    requires forall n :: n in keys ==> n in ordered
    requires forall k :: 0 <= k < i ==> !Less(name, ordered[k])
    requires forall k :: i <= k < |ordered| ==> Less(name, ordered[k])
    ensures StrictlySorted(ordered[..i] + [name] + ordered[i..])
    ensures forall k :: 0 <= k < |ordered| + 1 ==> (ordered[..i] + [name] + ordered[i..])[k] in keys + {name}
    ensures forall n :: n in keys + {name} ==> n in ordered[..i] + [name] + ordered[i..]
  {
    forall k | 0 <= k < i
      ensures Less(ordered[k], name)
    {
      LessTrichotomy(ordered[k], name);
    }
    InsertKeepsSorted(ordered, i, name);
    SpliceCovers(keys, ordered, name, i);
    SpliceWithin(keys, ordered, name, i);
  }

  lemma SpliceCovers(keys: set<string>, ordered: seq<string>, name: string, i: nat)
    requires i <= |ordered|
    requires forall n :: n in keys ==> n in ordered
    ensures forall n :: n in keys + {name} ==> n in ordered[..i] + [name] + ordered[i..]
  {
    var ordered' := ordered[..i] + [name] + ordered[i..];
    forall n | n in keys + {name}
      ensures n in ordered'
    {
      if n == name {
        assert ordered'[i] == n;
      } else {
        var k :| 0 <= k < |ordered| && ordered[k] == n;
        if k < i {
          assert ordered'[k] == n;
        } else {
          assert ordered'[k + 1] == n;
        }
      }
    }
  }

  lemma SpliceWithin(keys: set<string>, ordered: seq<string>, name: string, i: nat)
    requires i <= |ordered|
    requires forall k :: 0 <= k < |ordered| ==> ordered[k] in keys
    ensures forall k :: 0 <= k < |ordered| + 1 ==> (ordered[..i] + [name] + ordered[i..])[k] in keys + {name}
  {
    var ordered' := ordered[..i] + [name] + ordered[i..];
    forall k | 0 <= k < |ordered'|
      ensures ordered'[k] in keys + {name}
    {
      if k < i {
        assert ordered'[k] == ordered[k];
      } else if k > i {
        assert ordered'[k] == ordered[k - 1];
      }
    }
  }

  /** Adding an item under a new name, spliced in between the smaller and the larger names, keeps the invariant. */
  lemma RegistryInsert(entries: map<string, DomainListItem>, ordered: seq<string>, repr: set<object>,
                       name: string, item: DomainListItem, i: nat)
    requires Registry(entries, ordered, repr)
    requires name !in entries && i <= |ordered|
    requires forall k :: 0 <= k < i ==> !Less(name, ordered[k])
    requires forall k :: i <= k < |ordered| ==> Less(name, ordered[k])
    requires ItemFor(name, item)
    ensures Registry(entries[name := item], ordered[..i] + [name] + ordered[i..], repr + item.Repr())
  {
    OrderedInsert(entries.Keys, ordered, name, i);
    var entries' := entries[name := item];
    assert entries'.Keys == entries.Keys + {name};
    forall n | n in entries'
      ensures ItemFor(n, entries'[n]) && Owned(entries'[n], repr + item.Repr())
    {
    }
  }

  class DomainList {
    var entries: map<string, DomainListItem>
    var orderedDomains: seq<string>
    /**
     * The workflow state: -2 fetching the listing, 0…3 the last add answer,
     * 4 listing received, 5 listing unusable.
     */
    var state: int
    /** The code the feedback banner displays. */
    var banner: int
    var search: string
    var counter: Option<Counter>
    const engine: RegexEngine
    ghost var requests: seq<Request>
    ghost var Repr: set<object>

    ghost predicate Valid()
      reads this`Repr, this`entries, this`orderedDomains
    {
      this in Repr && Registry(entries, orderedDomains, Repr)
    }

    /** Every entry appears once in the sorted list. */
    lemma EntriesCount()
      requires Valid()
      ensures |entries| == |orderedDomains|
    {
      StrictlySortedIsSorted(orderedDomains);
      DistinctCount(orderedDomains, entries.Keys);
    }

    /** `new DomainList(…)`: empty, then asks for the listing straight away. */
    constructor (engine: RegexEngine)
      ensures Valid() && fresh(Repr)
      ensures entries == map[] && orderedDomains == [] && search == "" && counter == None
      ensures state == -2 && banner == -2 && requests == [ListingRequest]
      ensures this.engine == engine
    {
      this.engine := engine;
      entries := map[];
      orderedDomains := [];
      state := 0;
      banner := 0;
      search := "";
      counter := None;
      requests := [];
      Repr := {this};
      new;
      GetRemoteDomains();
    }

    /** `setState(s)`: the workflow state and the banner both show `s`. */
    method SetState(s: int)
      requires Valid()
      modifies this`state, this`banner
      ensures Valid() && state == s && banner == s
    {
      state := s;
      banner := s;
    }

    /** The Enter key in the add box asks about the text typed there; other keys do nothing. */
    method OnAddInputKey(keyCode: int, text: string)
      requires Valid()
      modifies this`banner, this`requests
      ensures Valid()
      ensures keyCode == EnterKey && state >= 0 ==> banner == -1 && requests == old(requests) + [AddRequest(text)]
      ensures keyCode != EnterKey || state < 0 ==> banner == old(banner) && requests == old(requests)
    {
      if keyCode == EnterKey {
        AskDomain(text);
      }
    }

    /** Typing in the search box filters the entries with the new text. */
    method OnSearchInput(text: string)
      requires Valid()
      modifies this`search, this`counter, entries.Values`hidden
      ensures Valid() && search == text
      ensures counter == SearchCounter(engine, text, TagsOf(entries, orderedDomains), old(counter))
      ensures forall n :: n in entries ==> entries[n].hidden == SearchedItem(engine, text, entries[n], old(entries[n].hidden))
    {
      search := text;
      SearchDomainItems();
    }

    /**
     * `findOrderedIndex(domain, left, right)`: the position within
     * `[left, right)` of the sorted list where `domain` belongs, after every
     * name that does not exceed it.
     */
    method FindOrderedIndex(domain: string, left: nat, right: nat) returns (i: nat)
      requires Sorted(orderedDomains) && left <= right <= |orderedDomains|
      ensures left <= i <= right
      ensures forall k :: left <= k < i ==> !Less(domain, orderedDomains[k])
      ensures forall k :: i <= k < right ==> Less(domain, orderedDomains[k])
    {
      var lo, hi := left, right;
      while lo != hi
        invariant left <= lo <= hi <= right
        invariant forall k :: left <= k < lo ==> !Less(domain, orderedDomains[k])
        invariant forall k :: hi <= k < right ==> Less(domain, orderedDomains[k])
        decreases hi - lo
      {
        var half := (hi - lo) / 2;
        var check := orderedDomains[lo + half];
        if Less(domain, check) {
          forall k | lo + half < k < right
            ensures Less(domain, orderedDomains[k])
          {
            LessTrichotomy(check, orderedDomains[k]);
            if Less(check, orderedDomains[k]) {
              LessTransitive(domain, check, orderedDomains[k]);
            }
          }
          hi := lo + half;
        } else {
          forall k | lo <= k < lo + half
            ensures !Less(domain, orderedDomains[k])
          {
            LessTrichotomy(orderedDomains[k], check);
            if Less(domain, orderedDomains[k]) && Less(orderedDomains[k], check) {
              LessTransitive(domain, orderedDomains[k], check);
            }
          }
          lo := hi - half;
        }
      }
      i := lo;
    }

    /**
     * `searchDomainItems()`: an empty search shows every entry and counts
     * them all; a search that does not compile changes nothing; any other
     * search shows the labelled entries it matches, hides the other labelled
     * ones and counts only the labelled ones.
     */
    method SearchDomainItems()
      requires Valid()
      modifies this`counter, entries.Values`hidden
      ensures Valid()
      ensures counter == SearchCounter(engine, search, TagsOf(entries, orderedDomains), old(counter))
      ensures forall n :: n in entries ==> entries[n].hidden == SearchedItem(engine, search, entries[n], old(entries[n].hidden))
    {
      Enumerated();
      if search == "" {
        var entriesExist, entriesShown := ShowAllPass(entries, orderedDomains, engine);
        counter := Some(Counter(entriesShown, entriesExist));
      } else if engine.compiles(search) {
        var entriesExist, entriesShown := FilterPass(entries, orderedDomains, engine, search);
        counter := Some(Counter(entriesShown, entriesExist));
      } else {
        return;
      }
      forall n | n in entries
        ensures entries[n].hidden == SearchedItem(engine, search, entries[n], old(entries[n].hidden))
      {
        var k :| 0 <= k < |orderedDomains| && orderedDomains[k] == n;
      }
    }

    /** The sorted list enumerates the entries, one distinct item per position. */
    lemma Enumerated()
      requires Valid()
      ensures Enumerates(entries, orderedDomains)
    {
      StrictlySortedIsSorted(orderedDomains);
      forall j, k | 0 <= j < |orderedDomains| && 0 <= k < |orderedDomains| && j != k
        ensures entries[orderedDomains[j]] != entries[orderedDomains[k]]
      {
        assert entries[orderedDomains[j]].domain == orderedDomains[j];
      }
    }

    /** `askDomain(domain)`: unless a request is running, shows "querying" and asks the server about `domain`. */
    method AskDomain(domain: string)
      requires Valid()
      modifies this`banner, this`requests
      ensures Valid()
      ensures old(state) >= 0 ==> banner == -1 && requests == old(requests) + [AddRequest(domain)]
      ensures old(state) < 0 ==> banner == old(banner) && requests == old(requests)
    {
      if state >= 0 {
        banner := -1;
        requests := requests + [AddRequest(domain)];
      }
    }

    /** `getRemoteDomains()`: unless a request is running, enters state -2 and asks for the listing. */
    method GetRemoteDomains()
      requires Valid()
      modifies this`state, this`banner, this`requests
      ensures Valid()
      ensures old(state) >= 0 ==> state == -2 && banner == -2 && requests == old(requests) + [ListingRequest]
      ensures old(state) < 0 ==> state == old(state) && banner == old(banner) && requests == old(requests)
    {
      if state >= 0 {
        SetState(-2);
        requests := requests + [ListingRequest];
      }
    }

    /** `item` stored under the new `name`, which is spliced into the sorted list; nothing else changes. */
    method Splice(name: string, item: DomainListItem)
      requires Valid() && name !in entries
      requires ItemFor(name, item)
      modifies this`entries, this`orderedDomains, this`Repr
      ensures Valid() && Repr == old(Repr) + item.Repr()
      ensures entries == old(entries)[name := item]
      ensures orderedDomains == SortedInsert(old(orderedDomains), name)
    {
      StrictlySortedIsSorted(orderedDomains);
      var i := FindOrderedIndex(name, 0, |orderedDomains|);
      RegistryInsert(entries, orderedDomains, Repr, name, item, i);
      SpliceIsSortedInsert(orderedDomains, name, i);
      orderedDomains := orderedDomains[..i] + [name] + orderedDomains[i..];
      entries := entries[name := item];
      Repr := Repr + item.Repr();
    }

    /** A fresh item built from `record`, spliced in under its new name. */
    method InsertEntry(record: Json, now: int)
      requires Valid() && IsRecord(record) && NameOf(record) !in entries
      modifies this`entries, this`orderedDomains, this`Repr
      ensures Valid() && fresh(Repr - old(Repr))
      ensures old(Repr) <= Repr && Grown(old(entries), entries, {NameOf(record)}, Repr - old(Repr))
      ensures fresh(entries[NameOf(record)]) && entries[NameOf(record)].BuiltFrom(record, now)
      ensures entries[NameOf(record)].Classified()
      ensures forall n :: n in entries ==>
                entries[n].hidden == if n in old(entries) then old(entries[n].hidden) else entries[n].showHides
      ensures orderedDomains == SortedInsert(old(orderedDomains), NameOf(record))
    {
      var item := new DomainListItem(record, now);
      assert fresh(item.Repr());
      Splice(NameOf(record), item);
      assert entries[NameOf(record)] == item && item in Repr - old(Repr);
    }

    /**
     * What adding the record of a new name did: its item, built from the
     * record at `now`, was spliced in at its sorted position, and the current
     * search was re-run over the whole list, the new item starting from the
     * flag its constructor left.
     */
    twostate predicate InsertedNew(record: Json, now: int)
      requires Valid() && IsRecord(record)
      reads this`Repr, this`entries, this`orderedDomains, this`counter, this`search, Repr - {this}
    {
      && NameOf(record) !in old(entries) && NameOf(record) in entries
      && old(Repr) <= Repr && Grown(old(entries), entries, {NameOf(record)}, Repr - old(Repr))
      && orderedDomains == SortedInsert(old(orderedDomains), NameOf(record))
      && fresh(entries[NameOf(record)]) && entries[NameOf(record)].BuiltFrom(record, now)
      && entries[NameOf(record)].Classified()
      && counter == SearchCounter(engine, search, TagsOf(entries, orderedDomains), old(counter))
      && forall n :: n in entries ==>
           entries[n].hidden == SearchedItem(engine, search, entries[n],
             if n in old(entries) then old(entries[n].hidden) else entries[n].showHides)
    }

    /**
     * What adding the record of a known name did: the record was replayed
     * through the existing item's `update`, and nothing else changed.
     */
    twostate predicate MergedKnown(record: Json)
      requires Valid() && IsRecord(record)
      reads this`Repr, this`entries, this`orderedDomains, this`counter, Repr - {this}
    {
      && NameOf(record) in old(entries)
      && entries == old(entries) && orderedDomains == old(orderedDomains) && counter == old(counter)
      && (forall n :: n in entries ==> entries[n].hidden == old(entries[n].hidden))
      && forall kind :: entries[NameOf(record)].Property(kind).value
                        == ApplyPatch(old(entries[NameOf(record)].Property(kind).value), PatchFor(record.fields, kind))
    }

    method AddNewEntry(record: Json, now: int)
      requires Valid() && IsRecord(record) && NameOf(record) !in entries
      modifies this`entries, this`orderedDomains, this`Repr, this`counter, entries.Values`hidden
      ensures Valid() && fresh(Repr - old(Repr))
      ensures old(Repr) <= Repr && Grown(old(entries), entries, {NameOf(record)}, Repr - old(Repr))
      ensures InsertedNew(record, now)
    {
      InsertEntry(record, now);
      ghost var item := entries[NameOf(record)];
      label Inserted:
      SearchDomainItems();
      assert unchanged@Inserted(item.dns) && unchanged@Inserted(item.ping) && unchanged@Inserted(item.http);
      forall n | n in entries
        ensures entries[n].hidden == SearchedItem(engine, search, entries[n],
                  if n in old(entries) then old(entries[n].hidden) else entries[n].showHides)
      {
        assert old@Inserted(entries[n].hidden) == if n in old(entries) then old(entries[n].hidden) else entries[n].showHides;
      }
    }

    method MergeEntry(record: Json)
      requires Valid() && IsRecord(record) && NameOf(record) in entries
      modifies entries[NameOf(record)].dns`value, entries[NameOf(record)].ping`value, entries[NameOf(record)].http`value
      ensures Grown(old(entries), entries, {NameOf(record)}, {})
      ensures MergedKnown(record)
    {
      var item := entries[NameOf(record)];
      item.Update(record.fields);
    }

    /**
     * `addDomainItem(record)`: a new name is inserted in sorted position with
     * a fresh item built from the record, and the search is re-run; a known
     * name only has the record replayed through its item's `update`.
     */
    method AddDomainItem(record: Json, now: int)
      requires Valid() && IsRecord(record)
      modifies this`entries, this`orderedDomains, this`Repr, this`counter, entries.Values`hidden
      modifies (if NameOf(record) in entries then {entries[NameOf(record)].dns, entries[NameOf(record)].ping, entries[NameOf(record)].http} else {})`value
      ensures Valid() && fresh(Repr - old(Repr))
      ensures NameOf(record) in old(entries) ==> MergedKnown(record)
      ensures NameOf(record) !in old(entries) ==> InsertedNew(record, now)
      ensures old(Repr) <= Repr && Grown(old(entries), entries, {NameOf(record)}, Repr - old(Repr))
      ensures search != "" && !engine.compiles(search) ==> counter == old(counter)
    {
      if NameOf(record) !in entries {
        AddNewEntry(record, now);
      } else {
        MergeEntry(record);
      }
    }

    /**
     * `setRemoteDomains(res)`: an answer that is not a listing (`None` when
     * `JSON.parse` throws, or `null`) only enters state 5; otherwise every
     * record is added in order, state 4 is entered and the search is re-run.
     */
    method SetRemoteDomains(reply: Option<Json>, now: int)
      requires Valid() && ListingShape(reply)
      modifies this`state, this`banner, this`entries, this`orderedDomains, this`Repr, this`counter
      modifies if ListingParsed(reply) then Repr - {this} else {}
      ensures Valid() && fresh(Repr - old(Repr))
      ensures !ListingParsed(reply) ==> state == 5 && banner == 5 && entries == old(entries)
                                        && orderedDomains == old(orderedDomains) && counter == old(counter)
      ensures ListingParsed(reply) ==> state == 4 && banner == 4
      ensures ListingParsed(reply) ==>
                && entries.Keys == old(entries).Keys + NamesOf(ListingItems(reply))
                && (forall n :: n in old(entries) ==> entries[n] == old(entries[n]))
                && (forall n :: n in entries && n !in old(entries) ==> fresh(entries[n]))
                && counter == SearchCounter(engine, search, TagsOf(entries, orderedDomains), old(counter))
                && forall n :: n in entries && (search == "" || (engine.compiles(search) && entries[n].Tag().Some?)) ==>
                     entries[n].hidden == SearchedItem(engine, search, entries[n], false)
    {
      if !ListingParsed(reply) {
        SetState(5);
        return;
      }
      AddRecords(ListingItems(reply), now);
      FinishListing();
    }

    /** What the listing's loop needs from one `addDomainItem`: the record's name is listed, and nothing else is replaced. */
    method AddListed(record: Json, now: int)
      requires Valid() && IsRecord(record)
      modifies this`entries, this`orderedDomains, this`Repr, this`counter, entries.Values`hidden
      modifies (if NameOf(record) in entries then {entries[NameOf(record)].dns, entries[NameOf(record)].ping, entries[NameOf(record)].http} else {})`value
      ensures Valid() && fresh(Repr - old(Repr))
      ensures old(Repr) <= Repr && Grown(old(entries), entries, {NameOf(record)}, Repr - old(Repr))
      ensures search != "" && !engine.compiles(search) ==> counter == old(counter)
    {
      AddDomainItem(record, now);
    }

    /** The listing's loop: `addDomainItem` on every record, in order. */
    method AddRecords(items: seq<Json>, now: int)
      requires Valid() && forall j :: j in items ==> IsRecord(j)
      modifies this`entries, this`orderedDomains, this`Repr, this`counter, Repr - {this}
      ensures Valid() && fresh(Repr - old(Repr))
      ensures old(Repr) <= Repr && Grown(old(entries), entries, NamesOf(items), Repr - old(Repr))
      ensures search != "" && !engine.compiles(search) ==> counter == old(counter)
    {
      var ii := 0;
      while ii < |items|
        invariant Valid() && fresh(Repr - old(Repr)) && 0 <= ii <= |items|
        invariant old(Repr) <= Repr && Grown(old(entries), entries, NamesOf(items[..ii]), Repr - old(Repr))
        invariant search != "" && !engine.compiles(search) ==> counter == old(counter)
      {
        NamesOfStep(items, ii);
        ghost var before, pool := entries, Repr;
        AddListed(items[ii], now);
        GrownStep(old(entries), before, entries, NamesOf(items[..ii]), {NameOf(items[ii])}, pool - old(Repr), Repr - pool);
        ii := ii + 1;
      }
      assert items[..ii] == items;
    }

    /** The end of a usable listing: state 4, then the search is re-run. */
    method FinishListing()
      requires Valid()
      modifies this`state, this`banner, this`counter, entries.Values`hidden
      ensures Valid() && state == 4 && banner == 4
      ensures counter == SearchCounter(engine, search, TagsOf(entries, orderedDomains), old(counter))
      ensures forall n :: n in entries ==> entries[n].hidden == SearchedItem(engine, search, entries[n], old(entries[n].hidden))
      ensures forall n :: n in entries && (search == "" || (engine.compiles(search) && entries[n].Tag().Some?)) ==>
                entries[n].hidden == SearchedItem(engine, search, entries[n], false)
    {
      SetState(4);
      SearchDomainItems();
      forall n | n in entries && (search == "" || (engine.compiles(search) && entries[n].Tag().Some?))
        ensures entries[n].hidden == SearchedItem(engine, search, entries[n], false)
      {
        SearchSettles(engine, search, entries[n], old(entries[n].hidden));
      }
    }

    /**
     * `serverResponseControl(res)`: an answer `JSON.parse` rejects (`None`)
     * or `null` changes nothing; an object's code becomes the state the banner
     * shows, and code 0 adds the record it carries.
     */
    method ServerResponseControl(reply: Option<Json>, now: int)
      requires Valid() && AddReplyShape(reply)
      modifies this`state, this`banner, this`entries, this`orderedDomains, this`Repr, this`counter
      modifies (if AddReplyParsed(reply) && AddReplyCode(reply) == 0 then entries.Values else {})`hidden
      modifies (if AddReplyParsed(reply) && AddReplyCode(reply) == 0 && NameOf(AddReplyData(reply)) in entries
                then {entries[NameOf(AddReplyData(reply))].dns, entries[NameOf(AddReplyData(reply))].ping,
                      entries[NameOf(AddReplyData(reply))].http}
                else {})`value
      ensures Valid() && fresh(Repr - old(Repr))
      ensures !AddReplyParsed(reply) ==> state == old(state) && banner == old(banner)
      ensures AddReplyParsed(reply) ==> state == AddReplyCode(reply) && banner == AddReplyCode(reply)
      ensures !(AddReplyParsed(reply) && AddReplyCode(reply) == 0) ==>
                entries == old(entries) && orderedDomains == old(orderedDomains) && counter == old(counter)
      ensures AddReplyParsed(reply) && AddReplyCode(reply) == 0 ==>
                && old(Repr) <= Repr && Grown(old(entries), entries, {NameOf(AddReplyData(reply))}, Repr - old(Repr))
                && (search != "" && !engine.compiles(search) ==> counter == old(counter))
    {
      if !AddReplyParsed(reply) {
        return;
      }
      // The state is set after the record is added: neither step reads or
      // writes what the other does, so the order is not observable.
      if AddReplyCode(reply) == 0 {
        AddDomainItem(AddReplyData(reply), now);
      }
      SetState(AddReplyCode(reply));
    }
  }
}
