/**
 * `DomainListItem` (static/script.js): one monitored domain name with its three
 * cached check results (DNS, ping, HTTP), each a `RemoteProperty`, the merge
 * patches the server's answers apply to them, the label the search works on,
 * and the visibility flag the search and the toggle control.
 */
module DomainItem {
  import opened Wrappers
  import opened Strings
  import opened JsonValue
  import opened Remote

  /** The value a check property caches: `{state, lastCheck}`. */
  datatype Status = Status(state: int, lastCheck: int)

  /** A merge patch: only the sub-fields it defines are written. */
  datatype Patch = Patch(state: Option<int>, lastCheck: Option<int>)

  datatype Kind = Dns | Ping | Http

  /** Minimum time between two fetches of one check: thirty minutes, in milliseconds. */
  const RefreshLimit: int := 30 * 60 * 1000

  /** The patch each property's `startCallback` applies when a fetch starts: "checking". */
  const CheckingPatch: Patch := Patch(Some(-1), None)

  /** Callbacks the item hands to its properties. */
  const DefaultInitCallback: CallbackId := 0
  const PingRefreshLog: CallbackId := 1
  const HttpRefreshLog: CallbackId := 2
  const RecheckCallback: CallbackId := 3

  /** `setDns(patch)` and its two siblings, on the cached value alone; `None` is an undefined patch. */
  function ApplyPatch(v: Status, patch: Option<Patch>): Status
  {
    match patch
    case None => v
    case Some(p) => Status(p.state.GetOr(v.state), p.lastCheck.GetOr(v.lastCheck))
  }

  /** The patch `q` laid over `p`: each sub-field `q` defines, otherwise `p`'s. */
  function Overlay(q: Patch, p: Patch): Patch
  {
    Patch(if q.state.Some? then q.state else p.state, if q.lastCheck.Some? then q.lastCheck else p.lastCheck)
  }

  /** An undefined patch, and a patch that defines no sub-field, leave the value as it was. */
  lemma EmptyPatchKeeps(v: Status)
    ensures ApplyPatch(v, None) == v && ApplyPatch(v, Some(Patch(None, None))) == v
  {
  }

  /** A patch that defines both sub-fields determines the value, whatever it was before. */
  lemma CompletePatchOverwrites(v: Status, w: Status, p: Patch)
    requires p.state.Some? && p.lastCheck.Some?
    ensures ApplyPatch(v, Some(p)) == ApplyPatch(w, Some(p)) == Status(p.state.value, p.lastCheck.value)
  {
  }

  /** Two setter calls in a row are one call with the second patch laid over the first. */
  lemma PatchesCompose(v: Status, p: Patch, q: Patch)
    ensures ApplyPatch(ApplyPatch(v, Some(p)), Some(q)) == ApplyPatch(v, Some(Overlay(q, p)))
  {
  }

  lemma ApplyPatchIdempotent(v: Status, patch: Option<Patch>)
    ensures ApplyPatch(ApplyPatch(v, patch), patch) == ApplyPatch(v, patch)
  {
  }

  /** `colorCode[state]`: the indicator colour, defined only for the three known states. */
  function ColorCode(state: int): (colour: Option<string>)
    ensures colour.Some? <==> state == -1 || state == 0 || state == 1
    ensures colour.Some? ==> |colour.value| == 7 && colour.value[0] == '#'
  {
    if state == -1 then Some("#CDDC39")
    else if state == 0 then Some("#4CAF50")
    else if state == 1 then Some("#FF5722")
    else None
  }

  /** Each property's key in a server record and in `updateKey`. */
  function KeyOf(kind: Kind): string
  {
    match kind
    case Dns => "dns"
    case Ping => "ping"
    case Http => "http"
  }

  /** Which setter `updateKey[key]` is; the other four keys map to no-ops. */
  function KindOfKey(key: string): (kind: Option<Kind>)
    ensures kind.Some? ==> KeyOf(kind.value) == key
    ensures forall k :: KeyOf(k) == key ==> kind == Some(k)
  {
    if key == "dns" then Some(Dns)
    else if key == "ping" then Some(Ping)
    else if key == "http" then Some(Http)
    else None
  }

  /** The keys of the `updateKey` table. */
  const UpdateKeys: set<string> :=
    {"domainName", "dns", "ping", "http", "dnsLastCheck", "pingLastCheck", "httpLastCheck"}

  /** A value a setter accepts: anything but `null`, with numeric sub-fields where an object defines them. */
  predicate PatchValue(j: Json)
  {
    match j
    case Null => false
    case Object(fields) =>
      && ("state" in fields ==> fields["state"].Number?)
      && ("lastCheck" in fields ==> fields["lastCheck"].Number?)
    case _ => true
  }

  /** The patch a value stands for: undefined sub-fields, and all of them for a non-object, are left alone. */
  function PatchOf(j: Json): Patch
    requires PatchValue(j)
  {
    if j.Object? then
      Patch(if "state" in j.fields then Some(j.fields["state"].n) else None,
            if "lastCheck" in j.fields then Some(j.fields["lastCheck"].n) else None)
    else Patch(None, None)
  }

  /** A record `update` can process: all its keys are in `updateKey`, and the setters' arguments are acceptable. */
  predicate UpdatableRecord(fields: map<string, Json>)
  {
    && fields.Keys <= UpdateKeys
    && forall kind :: KeyOf(kind) in fields ==> PatchValue(fields[KeyOf(kind)])
  }

  /** The patch `update(fields)` applies to one property. */
  function PatchFor(fields: map<string, Json>, kind: Kind): Option<Patch>
    requires UpdatableRecord(fields)
  {
    if KeyOf(kind) in fields then Some(PatchOf(fields[KeyOf(kind)])) else None
  }

  /** `{state, lastCheck}` with both numbers present. */
  predicate StatusValue(j: Json)
  {
    && j.Object?
    && "state" in j.fields && j.fields["state"].Number?
    && "lastCheck" in j.fields && j.fields["lastCheck"].Number?
  }

  /** A server record an item can be built from. */
  predicate IsRecord(j: Json)
  {
    && j.Object?
    && "domainName" in j.fields && j.fields["domainName"].Str?
    && UpdatableRecord(j.fields)
    && forall kind :: KeyOf(kind) in j.fields && StatusValue(j.fields[KeyOf(kind)])
  }

  function NameOf(record: Json): string
    requires IsRecord(record)
  {
    record.fields["domainName"].s
  }

  function StatusOf(record: Json, kind: Kind): Status
    requires IsRecord(record)
  {
    var j := record.fields[KeyOf(kind)];
    Status(j.fields["state"].n, j.fields["lastCheck"].n)
  }

  /** Replaying a record onto the values built from it changes nothing. */
  lemma RecordPatchKeepsStatus(record: Json, kind: Kind)
    requires IsRecord(record)
    ensures ApplyPatch(StatusOf(record, kind), PatchFor(record.fields, kind)) == StatusOf(record, kind)
  {
  }

  /** The construction-time refresh rule for ping and HTTP: never checked, or left checking or pending. */
  predicate NeedsRefresh(v: Status)
  {
    v.lastCheck == 0 || v.state == -1 || v.state == -2
  }

  // ------------------------------------------------------------------
  // The label: `domain.match(/(([^\s]+)\.|)ed\.ac\.uk$/)` and its group 2.

  const Suffix: string := "ed.ac.uk"

  /** No match (`null`), or a match whose group 2 is defined or `undefined`. */
  datatype PatternMatch = NoMatch | Matched(group: Option<string>)

  /** Where the longest whitespace-free run of `s` that ends at `end` begins. */
  function RunStart(s: string, end: nat): (start: nat)
    requires end <= |s|
    ensures start <= end
    ensures forall i :: start <= i < end ==> !IsWhitespace(s[i])
    ensures start == 0 || IsWhitespace(s[start - 1])
    decreases end
  {
    if end == 0 || IsWhitespace(s[end - 1]) then end else RunStart(s, end - 1)
  }

  /** `s` ends in `Suffix`, tested character by character. */
  predicate EndsInSuffix(s: string)
  {
    var n := |s|;
    && n >= 8
    && s[n - 8] == 'e' && s[n - 7] == 'd' && s[n - 6] == '.' && s[n - 5] == 'a'
    && s[n - 4] == 'c' && s[n - 3] == '.' && s[n - 2] == 'u' && s[n - 1] == 'k'
  }

  lemma EndsInSuffixIsEndsWith(s: string)
    ensures EndsInSuffix(s) <==> EndsWith(s, Suffix)
  {
    if |s| >= 8 {
      var t := s[|s| - 8..];
      assert forall i :: 0 <= i < 8 ==> t[i] == s[|s| - 8 + i];
    }
  }

  function Subdomain(domain: string): PatternMatch
  {
    var n := |domain|;
    if !EndsInSuffix(domain) then NoMatch
    else if n >= 10 && domain[n - 9] == '.' then
      var start := RunStart(domain, n - 9);
      if start < n - 9 then Matched(Some(domain[start..n - 9])) else Matched(None)
    else Matched(None)
  }

  /** The first alternative, `([^\s]+)\.ed\.ac\.uk$`, matches from position `p`. */
  ghost predicate LabelledAt(s: string, p: int)
  {
    && 0 <= p < |s| - 9
    && s[|s| - 9..] == "." + Suffix
    && forall i :: p <= i < |s| - 9 ==> !IsWhitespace(s[i])
  }

  /** The second alternative, the empty one followed by `ed\.ac\.uk$`, matches from position `p`. */
  ghost predicate BareAt(s: string, p: int)
  {
    0 <= p <= |s| && s[p..] == Suffix
  }

  ghost predicate MatchesAt(s: string, p: int)
  {
    LabelledAt(s, p) || BareAt(s, p)
  }

  /** `p` is where a backtracking engine reports the match: the first position with any match. */
  ghost predicate LeftmostMatch(s: string, p: int)
  {
    MatchesAt(s, p) && forall q :: 0 <= q < p ==> !MatchesAt(s, q)
  }

  /** `.ed.ac.uk` at the end of `s`, tested character by character. */
  lemma DotSuffix(s: string)
    ensures |s| >= 9 && s[|s| - 9] == '.' && EndsInSuffix(s) <==> |s| >= 9 && s[|s| - 9..] == "." + Suffix
  {
    if |s| >= 9 {
      var t := s[|s| - 9..];
      assert forall i :: 0 <= i < 9 ==> t[i] == s[|s| - 9 + i];
    }
  }

  /** The second alternative matches only where the suffix starts. */
  lemma BareAtShape(s: string)
    ensures forall p :: BareAt(s, p) <==> p == |s| - 8 && EndsInSuffix(s)
  {
    EndsInSuffixIsEndsWith(s);
    forall p | BareAt(s, p)
      ensures p == |s| - 8
    {
      assert |s[p..]| == |s| - p;
    }
  }

  /** The first alternative: a whitespace-free run from `p` up to `.ed.ac.uk`. */
  lemma LabelledAtShape(s: string)
    ensures forall p :: LabelledAt(s, p) <==>
              && 0 <= p < |s| - 9 && s[|s| - 9] == '.' && EndsInSuffix(s)
              && forall i :: p <= i < |s| - 9 ==> !IsWhitespace(s[i])
  {
    DotSuffix(s);
  }

  /**
   * `Subdomain` is the pattern's semantics: it matches iff the pattern matches
   * somewhere, and then group 2 is defined exactly when the leftmost match
   * took the first alternative, covering the text from there up to the dot.
   */
  lemma SubdomainIsLeftmostMatch(s: string)
    ensures Subdomain(s).Matched? <==> exists p :: MatchesAt(s, p)
    ensures Subdomain(s).Matched? ==>
              exists p :: LeftmostMatch(s, p)
                          && Subdomain(s).group == if LabelledAt(s, p) then Some(s[p..|s| - 9]) else None
  {
    var n := |s|;
    BareAtShape(s);
    LabelledAtShape(s);
    match Subdomain(s)
    case NoMatch =>
    case Matched(None) =>
      assert MatchesAt(s, n - 8);
      forall q | 0 <= q < n - 8
        ensures !MatchesAt(s, q)
      {
      }
      assert LeftmostMatch(s, n - 8);
    case Matched(Some(_)) =>
      var p := RunStart(s, n - 9);
      assert p < n - 9;
      assert LabelledAt(s, p);
      forall q | 0 <= q < p
        ensures !MatchesAt(s, q)
      {
        assert IsWhitespace(s[p - 1]);
      }
      assert LeftmostMatch(s, p);
  }

  /** A defined label is a non-empty whitespace-free run, and `.ed.ac.uk` follows it to the end of the name. */
  lemma SubdomainLabelShape(s: string)
    requires Subdomain(s).Matched? && Subdomain(s).group.Some?
    ensures var lbl := Subdomain(s).group.value;
            && |lbl| > 0 && (forall i :: 0 <= i < |lbl| ==> !IsWhitespace(lbl[i]))
            && |lbl| + 9 <= |s| && s[|s| - 9 - |lbl|..|s| - 9] == lbl && s[|s| - 9..] == "." + Suffix
  {
    DotSuffix(s);
  }

  // ------------------------------------------------------------------

  /** A property as `new RemoteProperty(v0, RefreshLimit, false, …)` leaves it: `v0`, idle, the default callback notified. */
  ghost predicate Pristine(p: RemoteProperty<Status>, v0: Status)
    reads p
  {
    && p.limit == RefreshLimit && p.value == v0
    && !p.gettingRemote && p.lastCall == 0 && p.callbacks == []
    && p.events == [Notified(DefaultInitCallback, v0)]
  }

  /**
   * The state of one property just after its item was constructed: pristine
   * when no refresh was called for; otherwise `getRemote(log)` either started
   * a fetch (and the item marked the property as checking) or, within the
   * limit, notified `log` at once.
   */
  ghost predicate Constructed(p: RemoteProperty<Status>, v0: Status, refresh: bool, logId: CallbackId, now: int)
    reads p
  {
    if !refresh then Pristine(p, v0)
    else if RefreshLimit <= now then
      && p.limit == RefreshLimit
      && p.value == ApplyPatch(v0, Some(CheckingPatch))
      && p.gettingRemote && p.lastCall == now && p.callbacks == [logId]
      && p.events == [Notified(DefaultInitCallback, v0), FetchStarted(v0), CheckerInvoked]
    else
      && p.limit == RefreshLimit && p.value == v0
      && !p.gettingRemote && p.lastCall == 0 && p.callbacks == []
      && p.events == [Notified(DefaultInitCallback, v0), Notified(logId, v0)]
  }

  /** `new RemoteProperty(v0, …)` as the item's constructor calls it: no fetch at construction. */
  method NewProperty(v0: Status, now: int) returns (p: RemoteProperty<Status>)
    ensures fresh(p) && Pristine(p, v0)
  {
    p := new RemoteProperty(v0, RefreshLimit, false, DefaultInitCallback, now);
  }

  class DomainListItem {
    const domain: string
    const dns: RemoteProperty<Status>
    const ping: RemoteProperty<Status>
    const http: RemoteProperty<Status>
    /** Group 2 of the pattern, for names the pattern matches. */
    const subdomain: Option<string>
    /** For names the pattern rejects, `show` is replaced by `hide`. */
    const showHides: bool
    var hidden: bool

    function Property(kind: Kind): RemoteProperty<Status>
    {
      match kind
      case Dns => dns
      case Ping => ping
      case Http => http
    }

    /** The text the search filters on: the root domain's own name, otherwise group 2. */
    function Tag(): Option<string>
    {
      if domain == "ed.ac.uk" then Some("ed.ac.uk") else subdomain
    }

    /** What the constructor reads off the name with the pattern. */
    ghost predicate Classified()
    {
      && showHides == Subdomain(domain).NoMatch?
      && subdomain == if Subdomain(domain).Matched? then Subdomain(domain).group else None
    }

    ghost function Repr(): set<object>
    {
      {this, dns, ping, http}
    }

    /** The three properties are three distinct objects. */
    ghost predicate Valid()
    {
      dns != ping && ping != http && dns != http
    }

    /** The three properties as construction from `record` at time `now` leaves them; DNS is never refreshed. */
    ghost predicate BuiltFrom(record: Json, now: int)
      requires IsRecord(record)
      reads dns, ping, http
    {
      && Constructed(dns, StatusOf(record, Dns), false, DefaultInitCallback, now)
      && Constructed(ping, StatusOf(record, Ping), NeedsRefresh(StatusOf(record, Ping)), PingRefreshLog, now)
      && Constructed(http, StatusOf(record, Http), NeedsRefresh(StatusOf(record, Http)), HttpRefreshLog, now)
    }

    /**
     * `new DomainListItem(record)` at time `now`: builds the three properties
     * from the record without fetching, hides the item (for good) when the
     * pattern rejects the name, replays the record through `update`, and
     * refreshes ping and HTTP when their cached result calls for it.
     */
    constructor (record: Json, now: int)
      requires IsRecord(record)
      ensures Valid() && fresh(dns) && fresh(ping) && fresh(http)
      ensures domain == NameOf(record) && Classified() && hidden == showHides
      ensures BuiltFrom(record, now)
    {
      var name := NameOf(record);
      domain := name;
      var d := NewProperty(StatusOf(record, Dns), now);
      var p := NewProperty(StatusOf(record, Ping), now);
      var h := NewProperty(StatusOf(record, Http), now);
      dns, ping, http := d, p, h;
      var m := Subdomain(name);
      showHides := m.NoMatch?;
      subdomain := if m.Matched? then m.group else None;
      hidden := false;
      new;
      if showHides {
        Hide();
      }
      Replay(record);
      RefreshAll(record, now);
    }

    /** The constructor's `update(record)`: replaying the record onto the values built from it changes nothing. */
    method Replay(record: Json)
      requires Valid() && IsRecord(record)
      requires forall kind :: Pristine(Property(kind), StatusOf(record, kind))
      modifies dns`value, ping`value, http`value
      ensures forall kind :: Pristine(Property(kind), StatusOf(record, kind))
      ensures hidden == old(hidden)
    {
      RecordPatchKeepsStatus(record, Dns);
      RecordPatchKeepsStatus(record, Ping);
      RecordPatchKeepsStatus(record, Http);
      Update(record.fields);
    }

    /** The constructor's closing refreshes: ping, then HTTP; DNS is left alone. */
    method RefreshAll(record: Json, now: int)
      requires Valid() && IsRecord(record)
      requires forall kind :: Pristine(Property(kind), StatusOf(record, kind))
      modifies ping, http
      ensures BuiltFrom(record, now)
      ensures hidden == old(hidden)
    {
      RefreshIfNeeded(Ping, PingRefreshLog, now);
      RefreshIfNeeded(Http, HttpRefreshLog, now);
    }

    /** The construction-time refresh of one property: `getRemote(log)` when `NeedsRefresh` holds. */
    method RefreshIfNeeded(kind: Kind, logId: CallbackId, now: int)
      requires Valid() && Pristine(Property(kind), Property(kind).value)
      modifies Property(kind)
      ensures Constructed(Property(kind), old(Property(kind).value), NeedsRefresh(old(Property(kind).value)), logId, now)
    {
      var p := Property(kind);
      if NeedsRefresh(p.value) {
        var started := p.GetRemote([Function(logId)], now);
        assert Queued([Function(logId)]) == [logId];
        if started {
          Set(kind, Some(CheckingPatch));
        }
      }
    }

    /** `setDns` / `setPing` / `setHttp`: patches one property's cached value and no other. */
    method Set(kind: Kind, patch: Option<Patch>)
      requires Valid()
      modifies Property(kind)`value
      ensures Property(kind).value == ApplyPatch(old(Property(kind).value), patch)
      ensures forall other :: other != kind ==> Property(other).value == old(Property(other).value)
    {
      var p := Property(kind);
      p.value := ApplyPatch(p.value, patch);
    }

    /** `update(fields)`: runs the `updateKey` entry of every key, so each property gets its own key's patch. */
    method Update(fields: map<string, Json>)
      requires Valid() && UpdatableRecord(fields)
      modifies dns`value, ping`value, http`value
      ensures forall kind :: Property(kind).value == ApplyPatch(old(Property(kind).value), PatchFor(fields, kind))
    {
      var keys := fields.Keys;
      while keys != {}
        invariant keys <= fields.Keys
        invariant forall kind ::
          Property(kind).value == ApplyPatch(old(Property(kind).value), if KeyOf(kind) in keys then None else PatchFor(fields, kind))
        decreases keys
      {
        var key :| key in keys;
        match KindOfKey(key) {
          case Some(kind) =>
            Set(kind, Some(PatchOf(fields[key])));
          case None =>
        }
        keys := keys - {key};
      }
    }

    /** The "Recheck" button of one property. */
    method Recheck(kind: Kind, now: int) returns (started: bool)
      requires Valid()
      modifies Property(kind)
      ensures started <==> !old(Property(kind).gettingRemote) && old(Property(kind).lastCall) + Property(kind).limit <= now
      ensures Property(kind).value == if started then ApplyPatch(old(Property(kind).value), Some(CheckingPatch))
                                      else old(Property(kind).value)
      ensures Property(kind).gettingRemote == (old(Property(kind).gettingRemote) || started)
      ensures Property(kind).lastCall == if started then now else old(Property(kind).lastCall)
      ensures old(Property(kind).gettingRemote) || started ==>
                && Property(kind).callbacks == old(Property(kind).callbacks) + [RecheckCallback]
                && Property(kind).events == old(Property(kind).events)
                     + (if started then [FetchStarted(old(Property(kind).value)), CheckerInvoked] else [])
      ensures !old(Property(kind).gettingRemote) && !started ==>
                && Property(kind).callbacks == []
                && Property(kind).events == old(Property(kind).events)
                     + NotifyLifo(old(Property(kind).callbacks) + [RecheckCallback], old(Property(kind).value))
    {
      assert Queued([Function(RecheckCallback)]) == [RecheckCallback];
      started := Property(kind).GetRemote([Function(RecheckCallback)], now);
      if started {
        Set(kind, Some(CheckingPatch));
      }
    }

    method Hide()
      modifies this`hidden
      ensures hidden
    {
      hidden := true;
    }

    /** `show`, which for a name the pattern rejects is `hide`. */
    method Show()
      modifies this`hidden
      ensures hidden == showHides
    {
      if showHides {
        Hide();
      } else {
        hidden := false;
      }
    }

    method Toggle()
      modifies this`hidden
      ensures old(hidden) ==> hidden == showHides
      ensures !old(hidden) ==> hidden
    {
      if hidden {
        Show();
      } else {
        Hide();
      }
    }
  }
}
