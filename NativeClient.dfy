/**
 * The desktop client: a table of `DomainEntry` rows that a refresh action
 * replaces with the server's listing. A lock keeps a second request from
 * being issued while one is pending; every reply releases it.
 */
module NativeClient {
  import opened Wrappers
  import opened JsonValue
  import opened Strings

  /** One table row: the domain and whether each of its three checks is up. */
  datatype DomainEntry = DomainEntry(url: string, activeDns: bool, activePing: bool, activeHttp: bool)

  /** The row shown until the first reply arrives. */
  const Placeholder: DomainEntry := DomainEntry("Loading remote entry list", false, false, false)

  /** The content type a reply must announce for its body to be read. */
  const JsonContentType: string := "application/json"

  // ------------------------------------------------------------------
  // The row operators: all three look at the url alone.

  /** `operator ==`. */
  predicate EntryEq(a: DomainEntry, b: DomainEntry)
  {
    a.url == b.url
  }

  /** `operator !=`. */
  predicate EntryNe(a: DomainEntry, b: DomainEntry)
  {
    a.url != b.url
  }

  /** `operator <`. */
  predicate EntryLess(a: DomainEntry, b: DomainEntry)
  {
    Less(a.url, b.url)
  }

  /** `!=` is the negation of `==`, and `==` identifies rows that agree on the url whatever their flags. */
  lemma EqualityOperators(a: DomainEntry, b: DomainEntry)
    ensures EntryNe(a, b) <==> !EntryEq(a, b)
    ensures EntryEq(a, DomainEntry(a.url, !a.activeDns, !a.activePing, !a.activeHttp))
  {
  }

  /**
   * `<` is a strict weak order whose incomparable rows are exactly the rows
   * `==` identifies, as a sort requires of it.
   */
  lemma {:induction false} LessIsStrictWeakOrder(a: DomainEntry, b: DomainEntry, c: DomainEntry)
    ensures !EntryLess(a, a)
    ensures EntryLess(a, b) ==> !EntryLess(b, a)
    ensures EntryLess(a, b) && EntryLess(b, c) ==> EntryLess(a, c)
    ensures !EntryLess(a, b) && !EntryLess(b, a) <==> EntryEq(a, b)
  {
    LessIrreflexive(a.url);
    LessTrichotomy(a.url, b.url);
    if EntryLess(a, b) {
      LessAsymmetric(a.url, b.url);
      if EntryLess(b, c) {
        LessTransitive(a.url, b.url, c.url);
      }
    }
    if EntryLess(b, a) {
      LessAsymmetric(b.url, a.url);
    }
  }

  /** Not after: `a` does not sort before `b`, so `b` may precede `a`. */
  lemma NotLessTransitive(a: DomainEntry, b: DomainEntry, c: DomainEntry)
    requires !EntryLess(a, b) && !EntryLess(b, c)
    ensures !EntryLess(a, c)
  {
    LessTrichotomy(a.url, b.url);
    LessTrichotomy(b.url, c.url);
    if a.url != b.url && b.url != c.url {
      LessTransitive(c.url, b.url, a.url);
      LessAsymmetric(c.url, a.url);
    }
  }

  // ------------------------------------------------------------------
  // From a reply's records to rows.

  /** `QJsonValue::toInt()`: a number representable as a 32-bit `int`, otherwise the default 0. */
  function ToInt(j: Json): (r: int)
    ensures -0x8000_0000 <= r < 0x8000_0000
    ensures j.Number? && -0x8000_0000 <= j.n < 0x8000_0000 ==> r == j.n
    ensures !(j.Number? && -0x8000_0000 <= j.n < 0x8000_0000) ==> r == 0
  {
    if j.Number? && -0x8000_0000 <= j.n < 0x8000_0000 then j.n else 0
  }

  /**
   * `obj[key].toObject()["state"].toInt()`: a member that is not an object
   * reads as the empty object, and a missing `state` as 0.
   */
  function StateOf(fields: map<string, Json>, key: string): int
  {
    if key in fields && fields[key].Object? && "state" in fields[key].fields
    then ToInt(fields[key].fields["state"])
    else 0
  }

  /** A check is shown as up when its state reads as 0. */
  predicate Active(fields: map<string, Json>, key: string)
  {
    StateOf(fields, key) == 0
  }

  /**
   * A missing check, a check without a state, a state that is not a number and
   * a state outside the 32-bit range all count as up; an in-range state counts
   * iff it is 0.
   */
  lemma ActiveMeaning(fields: map<string, Json>, key: string)
    ensures key !in fields || !fields[key].Object? || "state" !in fields[key].fields ==> Active(fields, key)
    ensures key in fields && fields[key].Object? && "state" in fields[key].fields ==>
              var st := fields[key].fields["state"];
              (!st.Number? || st.n < -0x8000_0000 || st.n >= 0x8000_0000 ==> Active(fields, key))
              && (st.Number? && -0x8000_0000 <= st.n < 0x8000_0000 ==> (Active(fields, key) <==> st.n == 0))
  {
  }

  /** `obj["domainName"].toString()`: the text of a string, otherwise the empty text. */
  function UrlOf(fields: map<string, Json>): string
  {
    if "domainName" in fields && fields["domainName"].Str? then fields["domainName"].s else ""
  }

  /**
   * Whether the check under `key` shows as up, read off the JSON directly: a
   * missing check or state, a state that is not a number and a state outside
   * the 32-bit range count as up; an in-range state counts iff it is 0.
   */
  predicate ShowsUp(fields: map<string, Json>, key: string)
  {
    if key in fields && fields[key].Object? && "state" in fields[key].fields then
      var st := fields[key].fields["state"];
      !st.Number? || st.n < -0x8000_0000 || 0x8000_0000 <= st.n || st.n == 0
    else true
  }

  /** The row built from a record: its `domainName` text as the url (empty for a non-string) and the three checks' flags. */
  function EntryOf(fields: map<string, Json>): (e: DomainEntry)
    ensures "domainName" in fields && fields["domainName"].Str? ==> e.url == fields["domainName"].s
    ensures !("domainName" in fields && fields["domainName"].Str?) ==> e.url == ""
    ensures e.activeDns == ShowsUp(fields, "dns") && e.activePing == ShowsUp(fields, "ping")
    ensures e.activeHttp == ShowsUp(fields, "http")
  {
    DomainEntry(UrlOf(fields), Active(fields, "dns"), Active(fields, "ping"), Active(fields, "http"))
  }

  /** The elements the conversion keeps: objects that have a `domainName` member. */
  predicate Keeps(j: Json)
  {
    j.Object? && "domainName" in j.fields
  }

  /** `doc.array()`: an array document's elements; any other document has none. */
  function DocumentArray(doc: Json): seq<Json>
  {
    if doc.Array? then doc.items else []
  }

  /** The kept elements, in order. */
  function Kept(items: seq<Json>): (r: seq<Json>)
    ensures forall i :: 0 <= i < |r| ==> Keeps(r[i])
  {
    if |items| == 0 then []
    else Kept(items[..|items| - 1]) + (if Keeps(items[|items| - 1]) then [items[|items| - 1]] else [])
  }

  /** The rows the conversion loop appends, in order. */
  function Converted(items: seq<Json>): seq<DomainEntry>
  {
    if |items| == 0 then []
    else
      var last := items[|items| - 1];
      Converted(items[..|items| - 1]) + (if Keeps(last) then [EntryOf(last.fields)] else [])
  }

  /** Each element is kept exactly as often as it occurs if it is a record with a name, and never otherwise. */
  lemma {:induction false} KeptCounts(items: seq<Json>, j: Json)
    ensures multiset(Kept(items))[j] == if Keeps(j) then multiset(items)[j] else 0
  {
    if |items| > 0 {
      var init, last := items[..|items| - 1], items[|items| - 1];
      KeptCounts(init, j);
      assert items == init + [last];
    }
  }

  /** One row per kept element, built from it and in its position. */
  lemma {:induction false} ConvertedRows(items: seq<Json>)
    ensures |Converted(items)| == |Kept(items)|
    ensures forall i :: 0 <= i < |Kept(items)| ==> Kept(items)[i].Object? && Converted(items)[i] == EntryOf(Kept(items)[i].fields)
  {
    if |items| > 0 {
      ConvertedRows(items[..|items| - 1]);
    }
  }

  // ------------------------------------------------------------------
  // Sorting the rows by url, as `qSort` does with `operator <`.

  /** No row sorts before a row ahead of it. */
  ghost predicate SortedByUrl(s: seq<DomainEntry>)
  {
    forall i, j :: 0 <= i < j < |s| ==> InOrder(s, i, j)
  }

  ghost predicate InOrder(s: seq<DomainEntry>, i: int, j: int)
    requires 0 <= i < |s| && 0 <= j < |s|
  {
    !EntryLess(s[j], s[i])
  }

  /** `e` placed after the rows it does not sort before, keeping `s` sorted. */
  method InsertByUrl(s: seq<DomainEntry>, e: DomainEntry) returns (r: seq<DomainEntry>)
    requires SortedByUrl(s)
    ensures SortedByUrl(r) && multiset(r) == multiset(s) + multiset{e}
  {
    var k := |s|;
    while k > 0 && EntryLess(e, s[k - 1])
      invariant 0 <= k <= |s|
      invariant forall m :: k <= m < |s| ==> EntryLess(e, s[m])
    {
      k := k - 1;
    }
    r := s[..k] + [e] + s[k..];
    assert s == s[..k] + s[k..];
    InsertedInOrder(s, e, k, r);
  }

  /** The step `InsertByUrl` rests on: `e` goes after every row it does not sort before and before the rest. */
  lemma InsertedInOrder(s: seq<DomainEntry>, e: DomainEntry, k: nat, r: seq<DomainEntry>)
    requires SortedByUrl(s) && k <= |s| && r == s[..k] + [e] + s[k..]
    requires k > 0 ==> !EntryLess(e, s[k - 1])
    requires forall m :: k <= m < |s| ==> EntryLess(e, s[m])
    ensures SortedByUrl(r)
  {
    assert |r| == |s| + 1 && r[k] == e;
    assert forall m :: 0 <= m < k ==> r[m] == s[m];
    assert forall m :: k < m < |r| ==> r[m] == s[m - 1];
    forall i, j | 0 <= i < j < |r|
      ensures InOrder(r, i, j)
    {
      if j < k {
        assert InOrder(s, i, j);
      } else if i > k {
        assert InOrder(s, i - 1, j - 1);
      } else if i == k {
        LessAsymmetric(e.url, s[j - 1].url);
      } else if j == k {
        if i < k - 1 {
          assert InOrder(s, i, k - 1);
          NotLessTransitive(e, s[k - 1], s[i]);
        }
      } else {
        assert InOrder(s, i, j - 1);
      }
    }
  }

  /** `qSort(entries)`: the rows in ascending url order; rows with equal urls may come in any order. */
  method SortByUrl(a: seq<DomainEntry>) returns (b: seq<DomainEntry>)
    ensures SortedByUrl(b) && multiset(b) == multiset(a)
  {
    b := [];
    var i := 0;
    while i < |a|
      invariant 0 <= i <= |a|
      invariant SortedByUrl(b) && multiset(b) == multiset(a[..i])
    {
      b := InsertByUrl(b, a[i]);
      assert a[..i + 1] == a[..i] + [a[i]];
      i := i + 1;
    }
    assert a[..i] == a;
  }

  // ------------------------------------------------------------------
  // The window.

  class MainWindow {
    /** A listing request is pending. */
    var refreshLocked: bool
    /** The rows of the table model. */
    var entries: seq<DomainEntry>
    /** The table accepts input. */
    var tableEnabled: bool
    /** How many listing requests have been sent. */
    ghost var requests: nat

    /** `MainWindow(parent)`: unlocked, then `postAutoUi` shows the placeholder and refreshes. */
    constructor ()
      ensures entries == [Placeholder] && refreshLocked && !tableEnabled && requests == 1
    {
      refreshLocked := false;
      tableEnabled := true;
      requests := 0;
      new;
      PostAutoUi();
    }

    /** `postAutoUi()`: a fresh table model holding only the placeholder row, then a refresh. */
    method PostAutoUi()
      modifies this
      ensures entries == [Placeholder]
      ensures old(refreshLocked) ==> refreshLocked == old(refreshLocked) && tableEnabled == old(tableEnabled)
                                     && requests == old(requests)
      ensures !old(refreshLocked) ==> refreshLocked && !tableEnabled && requests == old(requests) + 1
    {
      entries := [Placeholder];
      OnActionRefreshTriggered();
    }

    /** `on_actionRefresh_triggered()`: while locked nothing happens; otherwise lock, disable the table and send one request. */
    method OnActionRefreshTriggered()
      modifies this`refreshLocked, this`tableEnabled, this`requests
      ensures old(refreshLocked) ==> refreshLocked && tableEnabled == old(tableEnabled) && requests == old(requests)
      ensures !old(refreshLocked) ==> refreshLocked && !tableEnabled && requests == old(requests) + 1
    {
      if refreshLocked {
        return;
      }
      refreshLocked := true;
      tableEnabled := false;
      requests := requests + 1;
    }

    /**
     * `on_replyFinished(reply)`: a reply announcing JSON whose body parses
     * (`doc` is `None` for a null document) replaces the rows by those
     * converted from its array, sorted by url; any other reply keeps the rows.
     * Either way the lock is released and the table enabled.
     */
    method OnReplyFinished(contentType: string, doc: Option<Json>)
      modifies this`entries, this`refreshLocked, this`tableEnabled
      ensures !refreshLocked && tableEnabled
      ensures !(StartsWith(contentType, JsonContentType) && doc.Some?) ==> entries == old(entries)
      ensures StartsWith(contentType, JsonContentType) && doc.Some? ==>
                SortedByUrl(entries) && multiset(entries) == multiset(Converted(DocumentArray(doc.value)))
    {
      if StartsWith(contentType, JsonContentType) && doc.Some? {
        var items := DocumentArray(doc.value);
        entries := [];
        var i := 0;
        while i < |items|
          invariant 0 <= i <= |items|
          invariant entries == Converted(items[..i])
        {
          var val := items[i];
          assert items[..i + 1][..i] == items[..i];
          if val.Object? && "domainName" in val.fields {
            entries := entries + [EntryOf(val.fields)];
          }
          i := i + 1;
        }
        assert items[..i] == items;
        entries := SortByUrl(entries);
      }
      refreshLocked := false;
      tableEnabled := true;
    }
  }
}
