/** `_enforce_size`: cutting an investigation context down to a character budget, then rebuilding its references. */
module ContextTrimming {
  import opened Options
  import opened ReferenceLists
  import opened Totals

  /** An alert, event or piece of evidence: its reference and its JSON text. */
  datatype Item = Item(ref: string, text: string)

  datatype Technique = Technique(id: string, text: string)

  /** The incident object: its id, and the JSON text of each of its members. */
  datatype Incident = Incident(id: string, members: seq<string>)

  datatype Context = Context(
    incident: Incident,
    alerts: seq<Item>,
    events: seq<Item>,
    evidence: seq<Item>,
    timeline: seq<string>,
    techniques: seq<Technique>,
    refs: seq<string>)

  /** How a reference is quoted, and the text an alert or a timeline entry is shortened to. */
  datatype Rendering = Rendering(quote: string -> string, shortAlert: Item -> string, shortEntry: string -> string)

  const FLAG := "\"context_truncated\":true"

  // ---------------------------------------------------------------- size

  function Texts(items: seq<Item>): seq<string> {
    seq(|items|, i requires 0 <= i < |items| => items[i].text)
  }

  function TechniqueTexts(items: seq<Technique>): seq<string> {
    seq(|items|, i requires 0 <= i < |items| => items[i].text)
  }

  /** The compact JSON text, members in the order the model declares them. */
  function Serialize(c: Context, render: Rendering): string {
    "{\"incident\":{" + Join(c.incident.members) + "},\"alerts\":" + Array(Texts(c.alerts))
    + ",\"events\":" + Array(Texts(c.events)) + ",\"incident_evidence\":" + Array(Texts(c.evidence))
    + ",\"timeline\":" + Array(c.timeline) + ",\"techniques\":" + Array(TechniqueTexts(c.techniques))
    + ",\"valid_evidence_refs\":" + Array(Quoted(c.refs, render.quote)) + "}"
  }

  function Size(c: Context, render: Rendering): nat {
    |Serialize(c, render)|
  }

  /** Room taken by everything that trimming can change. */
  function Parts(c: Context, render: Rendering): nat {
    |Join(c.incident.members)| + |Array(Texts(c.alerts))| + |Array(Texts(c.events))| + |Array(Texts(c.evidence))|
    + |Array(c.timeline)| + |Array(TechniqueTexts(c.techniques))| + |Array(Quoted(c.refs, render.quote))|
  }

  const FRAME := 105

  lemma SizeIsParts(c: Context, render: Rendering)
    ensures Size(c, render) == FRAME + Parts(c, render)
  {
  }

  /** What a JSON array of `count` texts with so many characters takes. */
  function ArrayRoom(count: nat, characters: int): int {
    if count == 0 then 2 else count + 1 + characters
  }

  function ItemLength(): Item -> int {
    (x: Item) => |x.text|
  }

  function TechniqueLength(): Technique -> int {
    (x: Technique) => |x.text|
  }

  function QuotedLength(quote: string -> string): string -> int {
    (ref: string) => |quote(ref)|
  }

  lemma {:induction false} ItemsTotal(items: seq<Item>)
    ensures Total(Texts(items), Length()) == Total(items, ItemLength())
    decreases |items|
  {
    if items != [] {
      var texts := Texts(items);
      ItemsTotal(items[..|items| - 1]);
      assert texts[..|texts| - 1] == Texts(items[..|items| - 1]);
    }
  }

  lemma {:induction false} TechniquesTotal(items: seq<Technique>)
    ensures Total(TechniqueTexts(items), Length()) == Total(items, TechniqueLength())
    decreases |items|
  {
    if items != [] {
      var texts := TechniqueTexts(items);
      TechniquesTotal(items[..|items| - 1]);
      assert texts[..|texts| - 1] == TechniqueTexts(items[..|items| - 1]);
    }
  }

  lemma {:induction false} RefsTotal(refs: seq<string>, quote: string -> string)
    ensures Total(Quoted(refs, quote), Length()) == Total(refs, QuotedLength(quote))
    decreases |refs|
  {
    if refs != [] {
      var front, last := refs[..|refs| - 1], refs[|refs| - 1];
      RefsTotal(front, quote);
      assert refs == front + [last];
      QuotedConcat(front, [last], quote);
      assert Quoted([last], quote) == [quote(last)];
      TotalConcat(Quoted(front, quote), [quote(last)], Length());
      TotalOfOne(quote(last), Length());
    }
  }

  lemma {:induction false} TextsRoom(parts: seq<string>)
    ensures |Array(parts)| == ArrayRoom(|parts|, Total(parts, Length()))
  {
    ArrayLength(parts);
  }

  lemma {:induction false} ItemsRoom(items: seq<Item>)
    ensures |Array(Texts(items))| == ArrayRoom(|items|, Total(items, ItemLength()))
  {
    TextsRoom(Texts(items));
    ItemsTotal(items);
  }

  lemma {:induction false} TechniquesRoom(items: seq<Technique>)
    ensures |Array(TechniqueTexts(items))| == ArrayRoom(|items|, Total(items, TechniqueLength()))
  {
    TextsRoom(TechniqueTexts(items));
    TechniquesTotal(items);
  }

  lemma {:induction false} RefsRoom(refs: seq<string>, quote: string -> string)
    ensures |Array(Quoted(refs, quote))| == ArrayRoom(|refs|, Total(refs, QuotedLength(quote)))
  {
    TextsRoom(Quoted(refs, quote));
    RefsTotal(refs, quote);
  }

  /**
   * The size in numbers: every list counts with all the characters of its elements, its brackets and its commas; the
   * incident likewise; and the names, colons and commas around them take 103 more.
   */
  lemma {:induction false} SizeCounts(c: Context, render: Rendering)
    ensures Size(c, render) ==
      103 + ArrayRoom(|c.incident.members|, Total(c.incident.members, Length()))
      + ArrayRoom(|c.alerts|, Total(c.alerts, ItemLength()))
      + ArrayRoom(|c.events|, Total(c.events, ItemLength()))
      + ArrayRoom(|c.evidence|, Total(c.evidence, ItemLength()))
      + ArrayRoom(|c.timeline|, Total(c.timeline, Length()))
      + ArrayRoom(|c.techniques|, Total(c.techniques, TechniqueLength()))
      + ArrayRoom(|c.refs|, Total(c.refs, QuotedLength(render.quote)))
  {
    SizeIsParts(c, render);
    TextsRoom(c.incident.members);
    ItemsRoom(c.alerts);
    ItemsRoom(c.events);
    ItemsRoom(c.evidence);
    TextsRoom(c.timeline);
    TechniquesRoom(c.techniques);
    RefsRoom(c.refs, render.quote);
  }

  // ---------------------------------------------------------------- the trimming steps

  function Last<T>(s: seq<T>, n: nat): seq<T> {
    if |s| <= n then s else s[|s| - n..]
  }

  function First<T>(s: seq<T>, n: nat): seq<T> {
    if |s| <= n then s else s[..n]
  }

  function ShortAlerts(alerts: seq<Item>, render: Rendering): seq<Item> {
    seq(|alerts|, i requires 0 <= i < |alerts| => Item(alerts[i].ref, render.shortAlert(alerts[i])))
  }

  function ShortEntries(timeline: seq<string>, render: Rendering): seq<string> {
    seq(|timeline|, i requires 0 <= i < |timeline| => render.shortEntry(timeline[i]))
  }

  /** What is done once, before anything is popped. */
  function FirstCut(c: Context, render: Rendering): Context {
    var members := c.incident.members;
    c.(timeline := ShortEntries(Last(c.timeline, 50), render), alerts := ShortAlerts(Last(c.alerts, 50), render),
       events := Last(c.events, 50), evidence := First(c.evidence, 30),
       incident := Incident(c.incident.id, if FLAG in members then members else members + [FLAG]))
  }

  predicate CanPop(c: Context) {
    |c.timeline| > 1 || |c.events| > 1 || |c.alerts| > 1 || |c.evidence| > 1
  }

  function Popped(c: Context): Context
    requires CanPop(c)
  {
    if |c.timeline| > 1 then c.(timeline := c.timeline[1..])
    else if |c.events| > 1 then c.(events := c.events[1..])
    else if |c.alerts| > 1 then c.(alerts := c.alerts[1..])
    else c.(evidence := c.evidence[..|c.evidence| - 1])
  }

  function PoppedIfAny(c: Context): Context {
    if CanPop(c) then Popped(c) else c
  }

  /** The context after up to `n` pops. */
  function Drop(c: Context, n: nat): Context
    decreases n
  {
    if n == 0 then c else PoppedIfAny(Drop(c, n - 1))
  }

  function Spare<T>(s: seq<T>): nat {
    if |s| > 1 then |s| - 1 else 0
  }

  function SpareItems(c: Context): nat {
    Spare(c.timeline) + Spare(c.events) + Spare(c.alerts) + Spare(c.evidence)
  }

  /** At most one entry left of each list: the latest, except for evidence, where it is the first. */
  function Smallest(c: Context): Context {
    c.(timeline := Last(c.timeline, 1), events := Last(c.events, 1), alerts := Last(c.alerts, 1),
       evidence := First(c.evidence, 1))
  }

  function ItemRefs(items: seq<Item>): seq<string> {
    seq(|items|, i requires 0 <= i < |items| => items[i].ref)
  }

  function TechniqueRefs(items: seq<Technique>): seq<string> {
    seq(|items|, i requires 0 <= i < |items| => "mitre:" + items[i].id)
  }

  function OwnRefs(c: Context): seq<string> {
    ItemRefs(c.alerts) + ItemRefs(c.events) + ItemRefs(c.evidence)
    + (if c.incident.id == "" then [] else ["incident:" + c.incident.id]) + TechniqueRefs(c.techniques)
  }

  function WithRefs(c: Context): Context {
    c.(refs := SortedSet(OwnRefs(c)))
  }

  // ---------------------------------------------------------------- what popping does

  function Min(a: nat, b: nat): nat {
    if a <= b then a else b
  }

  /** How many entries have gone from each list. */
  datatype Pops = Pops(timeline: nat, events: nat, alerts: nat, evidence: nat)

  /** The next pop goes to the timeline if it can spare an entry, else to the events, the alerts, the evidence. */
  function NextPop(c: Context, p: Pops): Pops {
    if p.timeline < Spare(c.timeline) then p.(timeline := p.timeline + 1)
    else if p.events < Spare(c.events) then p.(events := p.events + 1)
    else if p.alerts < Spare(c.alerts) then p.(alerts := p.alerts + 1)
    else if p.evidence < Spare(c.evidence) then p.(evidence := p.evidence + 1)
    else p
  }

  function PopsOf(c: Context, n: nat): Pops
    decreases n
  {
    if n == 0 then Pops(0, 0, 0, 0) else NextPop(c, PopsOf(c, n - 1))
  }

  /** A list is touched only when those before it have nothing to spare. */
  lemma {:induction false} PopsInOrder(c: Context, n: nat)
    ensures var t := Min(n, Spare(c.timeline));
      var e := Min(n - t, Spare(c.events));
      var a := Min(n - t - e, Spare(c.alerts));
      PopsOf(c, n) == Pops(t, e, a, Min(n - t - e - a, Spare(c.evidence)))
    decreases n
  {
    if n > 0 {
      PopsInOrder(c, n - 1);
    }
  }

  function Sliced(c: Context, p: Pops): Context
    requires p.timeline <= |c.timeline| && p.events <= |c.events| && p.alerts <= |c.alerts| && p.evidence <= |c.evidence|
  {
    c.(timeline := c.timeline[p.timeline..], events := c.events[p.events..], alerts := c.alerts[p.alerts..],
       evidence := c.evidence[..|c.evidence| - p.evidence])
  }

  predicate Leaves(c: Context, p: Pops) {
    p.timeline <= Spare(c.timeline) && p.events <= Spare(c.events) && p.alerts <= Spare(c.alerts)
    && p.evidence <= Spare(c.evidence)
  }

  lemma PopTimeline(c: Context, p: Pops)
    requires Leaves(c, p) && p.timeline < Spare(c.timeline)
    ensures CanPop(Sliced(c, p)) && Popped(Sliced(c, p)) == Sliced(c, p.(timeline := p.timeline + 1))
  {
    assert c.timeline[p.timeline..][1..] == c.timeline[p.timeline + 1..];
  }

  lemma PopEvents(c: Context, p: Pops)
    requires Leaves(c, p) && p.timeline == Spare(c.timeline) && p.events < Spare(c.events)
    ensures CanPop(Sliced(c, p)) && Popped(Sliced(c, p)) == Sliced(c, p.(events := p.events + 1))
  {
    assert c.events[p.events..][1..] == c.events[p.events + 1..];
  }

  lemma PopAlerts(c: Context, p: Pops)
    requires Leaves(c, p) && p.timeline == Spare(c.timeline) && p.events == Spare(c.events) && p.alerts < Spare(c.alerts)
    ensures CanPop(Sliced(c, p)) && Popped(Sliced(c, p)) == Sliced(c, p.(alerts := p.alerts + 1))
  {
    assert c.alerts[p.alerts..][1..] == c.alerts[p.alerts + 1..];
  }

  lemma PopEvidence(c: Context, p: Pops)
    requires Leaves(c, p) && p.timeline == Spare(c.timeline) && p.events == Spare(c.events)
    requires p.alerts == Spare(c.alerts) && p.evidence < Spare(c.evidence)
    ensures CanPop(Sliced(c, p)) && Popped(Sliced(c, p)) == Sliced(c, p.(evidence := p.evidence + 1))
  {
    var kept := |c.evidence| - p.evidence;
    assert c.evidence[..kept][..kept - 1] == c.evidence[..kept - 1];
  }

  lemma PopSliced(c: Context, p: Pops)
    requires Leaves(c, p)
    ensures Leaves(c, NextPop(c, p)) && PoppedIfAny(Sliced(c, p)) == Sliced(c, NextPop(c, p))
    ensures CanPop(Sliced(c, p)) <==> NextPop(c, p) != p
  {
    if p.timeline < Spare(c.timeline) {
      PopTimeline(c, p);
    } else if p.events < Spare(c.events) {
      PopEvents(c, p);
    } else if p.alerts < Spare(c.alerts) {
      PopAlerts(c, p);
    } else if p.evidence < Spare(c.evidence) {
      PopEvidence(c, p);
    }
  }

  lemma NothingSliced(c: Context)
    ensures Sliced(c, Pops(0, 0, 0, 0)) == c
  {
  }

  /** In closed form: what is left after any number of pops. */
  lemma {:induction false} DropSlices(c: Context, n: nat)
    ensures Leaves(c, PopsOf(c, n)) && Drop(c, n) == Sliced(c, PopsOf(c, n))
    decreases n
  {
    if n == 0 {
      NothingSliced(c);
    } else {
      DropSlices(c, n - 1);
      PopSliced(c, PopsOf(c, n - 1));
    }
  }

  lemma {:induction false} MorePopsPossible(c: Context, n: nat)
    ensures CanPop(Drop(c, n)) <==> n < SpareItems(c)
  {
    DropSlices(c, n);
    PopSliced(c, PopsOf(c, n));
    PopsInOrder(c, n);
  }

  lemma {:induction false} DropEverything(c: Context)
    ensures Drop(c, SpareItems(c)) == Smallest(c)
  {
    DropSlices(c, SpareItems(c));
    PopsInOrder(c, SpareItems(c));
  }

  lemma PoppedIsSmaller(c: Context, render: Rendering)
    requires CanPop(c)
    ensures Size(Popped(c), render) <= Size(c, render)
  {
    SizeIsParts(c, render);
    SizeIsParts(Popped(c), render);
    if |c.timeline| > 1 {
      FewerPartsAreShorter(c.timeline[1..], c.timeline);
    } else if |c.events| > 1 {
      WithoutFirstIsShorter(c.events);
    } else if |c.alerts| > 1 {
      WithoutFirstIsShorter(c.alerts);
    } else {
      WithoutLastIsShorter(c.evidence);
    }
  }

  lemma WithoutFirstIsShorter(items: seq<Item>)
    requires items != []
    ensures |Array(Texts(items[1..]))| <= |Array(Texts(items))|
  {
    assert Texts(items)[1..] == Texts(items[1..]);
    FewerPartsAreShorter(Texts(items[1..]), Texts(items));
  }

  lemma WithoutLastIsShorter(items: seq<Item>)
    requires items != []
    ensures |Array(Texts(items[..|items| - 1]))| <= |Array(Texts(items))|
  {
    var front := Texts(items[..|items| - 1]);
    assert Texts(items) == front + [items[|items| - 1].text];
    RoomConcat(front, [items[|items| - 1].text]);
    FewerPartsAreShorter(front, Texts(items));
  }

  /** The serialized size as a function of the context alone. */
  function SizeOf(render: Rendering): Context -> nat {
    (c: Context) => Size(c, render)
  }

  ghost predicate PoppingShrinks(size: Context -> nat) {
    forall c: Context | CanPop(c) :: size(Popped(c)) <= size(c)
  }

  lemma SizeShrinks(render: Rendering)
    ensures PoppingShrinks(SizeOf(render))
  {
    forall c: Context | CanPop(c) ensures SizeOf(render)(Popped(c)) <= SizeOf(render)(c) {
      PoppedIsSmaller(c, render);
    }
  }

  lemma {:induction false} MorePopsAreSmaller(c: Context, m: nat, n: nat, size: Context -> nat)
    requires m <= n && PoppingShrinks(size)
    ensures size(Drop(c, n)) <= size(Drop(c, m))
    decreases n
  {
    if m < n {
      MorePopsAreSmaller(c, m, n - 1, size);
    }
  }

  // ---------------------------------------------------------------- references

  /** What `build` hands over: the reference list holds every reference of the context. */
  ghost predicate Covered(c: Context) {
    forall ref | ref in OwnRefs(c) :: ref in c.refs
  }

  /** The context as `build` assembles it from its parts. */
  function Assemble(incident: Incident, alerts: seq<Item>, events: seq<Item>, evidence: seq<Item>,
                    timeline: seq<string>, techniques: seq<Technique>): Context {
    var refs := ["incident:" + incident.id] + ItemRefs(alerts) + ItemRefs(events) + TechniqueRefs(techniques)
      + ItemRefs(evidence);
    Context(incident, alerts, events, evidence, timeline, techniques, SortedSet(refs))
  }

  lemma AssembledIsCovered(incident: Incident, alerts: seq<Item>, events: seq<Item>, evidence: seq<Item>,
                           timeline: seq<string>, techniques: seq<Technique>)
    ensures Covered(Assemble(incident, alerts, events, evidence, timeline, techniques))
  {
  }

  lemma SliceRefs(part: seq<Item>, whole: seq<Item>)
    requires forall item | item in part :: item in whole
    ensures forall ref | ref in ItemRefs(part) :: ref in ItemRefs(whole)
  {
    forall ref | ref in ItemRefs(part) ensures ref in ItemRefs(whole) {
      var i :| 0 <= i < |part| && ItemRefs(part)[i] == ref;
      assert part[i] in whole;
      var j :| 0 <= j < |whole| && whole[j] == part[i];
      assert ItemRefs(whole)[j] == ref;
    }
  }

  lemma CutRefs(c: Context, n: nat, render: Rendering)
    ensures forall ref | ref in OwnRefs(Drop(FirstCut(c, render), n)) :: ref in OwnRefs(c)
  {
    var cut := FirstCut(c, render);
    DropSlices(cut, n);
    var d := Drop(cut, n);
    assert ItemRefs(cut.alerts) == ItemRefs(Last(c.alerts, 50));
    SliceRefs(d.alerts, cut.alerts);
    SliceRefs(Last(c.alerts, 50), c.alerts);
    SliceRefs(d.events, c.events);
    SliceRefs(d.evidence, c.evidence);
  }

  /** Rebuilding the references after trimming never makes the text longer. */
  lemma {:induction false} RebuiltRefsFit(c: Context, n: nat, render: Rendering)
    requires Covered(c)
    ensures var d := Drop(FirstCut(c, render), n); Size(WithRefs(d), render) <= Size(d, render)
  {
    var d := Drop(FirstCut(c, render), n);
    CutRefs(c, n, render);
    DropSlices(FirstCut(c, render), n);
    var rebuilt := WithRefs(d);
    SortedSetAscends(OwnRefs(d));
    AscendingIsDistinct(rebuilt.refs);
    SubsetNeedsNoMoreRoom(rebuilt.refs, d.refs, render.quote);
    FewerPartsAreShorter(Quoted(rebuilt.refs, render.quote), Quoted(d.refs, render.quote));
    SizeIsParts(d, render);
    SizeIsParts(rebuilt, render);
  }

  // ---------------------------------------------------------------- the operation

  ghost predicate TooLargeBefore(cut: Context, n: nat, maxChars: int, size: Context -> nat) {
    forall m: nat | m < n :: size(Drop(cut, m)) > maxChars
  }

  /** `n` is the least number of pops after which the trimmed context fits. */
  ghost predicate LeastPops(cut: Context, n: nat, maxChars: int, size: Context -> nat) {
    size(Drop(cut, n)) <= maxChars && TooLargeBefore(cut, n, maxChars, size)
  }

  /** The popping loop. */
  method PopUntilFits(cut: Context, maxChars: int, size: Context -> nat) returns (r: Option<Context>)
    requires PoppingShrinks(size)
    ensures r.None? <==> size(Smallest(cut)) > maxChars
    ensures r.Some? ==> exists n: nat :: LeastPops(cut, n, maxChars, size) && r.value == Drop(cut, n)
  {
    var c := cut;
    ghost var n := 0;
    DropEverything(cut);
    while size(c) > maxChars
      invariant n <= SpareItems(cut)
      invariant c == Drop(cut, n)
      invariant TooLargeBefore(cut, n, maxChars, size)
      decreases SpareItems(cut) - n
    {
      MorePopsPossible(cut, n);
      if |c.timeline| > 1 {
        c := c.(timeline := c.timeline[1..]);
      } else if |c.events| > 1 {
        c := c.(events := c.events[1..]);
      } else if |c.alerts| > 1 {
        c := c.(alerts := c.alerts[1..]);
      } else if |c.evidence| > 1 {
        c := c.(evidence := c.evidence[..|c.evidence| - 1]);
      } else {
        return None;
      }
      n := n + 1;
    }
    MorePopsAreSmaller(cut, n, SpareItems(cut), size);
    assert LeastPops(cut, n, maxChars, size);
    r := Some(c);
  }

  // ---------------------------------------------------------------- how much is kept

  function Less(n: nat, k: nat): nat {
    if n <= k then 0 else n - k
  }

  /** Of a list that may keep `kept` entries, all but one can be popped: what `n` pops take, and what they leave over. */
  function Taken(kept: nat, n: nat): nat {
    Min(n, Less(kept, 1))
  }

  /** The latest `kept` entries. */
  predicate Latest<T(==)>(part: seq<T>, whole: seq<T>, kept: int) {
    0 <= kept <= |whole| && part == whole[|whole| - kept..]
  }

  /** Of at most 50 timeline entries, events and alerts and at most 30 pieces of evidence, what `n` pops take, in order. */
  function PopsTaken(c: Context, n: nat): Pops {
    var t := Taken(Min(|c.timeline|, 50), n);
    var e := Taken(Min(|c.events|, 50), n - t);
    var a := Taken(Min(|c.alerts|, 50), n - t - e);
    Pops(t, e, a, Taken(Min(|c.evidence|, 30), n - t - e - a))
  }

  /** In numbers of the original context: the latest entries, and the first evidence, less what was popped. */
  ghost predicate KeepsAllBut(c: Context, d: Context, p: Pops, render: Rendering) {
    && Latest(d.timeline, ShortEntries(c.timeline, render), Min(|c.timeline|, 50) - p.timeline)
    && Latest(d.events, c.events, Min(|c.events|, 50) - p.events)
    && Latest(d.alerts, ShortAlerts(c.alerts, render), Min(|c.alerts|, 50) - p.alerts)
    && p.evidence <= Min(|c.evidence|, 30) && d.evidence == c.evidence[..Min(|c.evidence|, 30) - p.evidence]
    && d.techniques == c.techniques && d.incident.id == c.incident.id
  }

  ghost predicate KeepsExactly(c: Context, d: Context, n: nat, render: Rendering) {
    KeepsAllBut(c, d, PopsTaken(c, n), render)
  }

  lemma {:induction false} CutKeeps(c: Context, render: Rendering)
    ensures KeepsAllBut(c, FirstCut(c, render), Pops(0, 0, 0, 0), render)
  {
    ShortEntriesLast(c.timeline, 50, render);
    ShortAlertsLast(c.alerts, 50, render);
  }

  lemma LaterOfLatest<T>(part: seq<T>, whole: seq<T>, kept: int, k: nat)
    requires Latest(part, whole, kept) && k <= kept
    ensures Latest(part[k..], whole, kept - k)
  {
  }

  lemma {:induction false} SlicedKeeps(c: Context, p: Pops, render: Rendering)
    requires Leaves(FirstCut(c, render), p)
    ensures KeepsAllBut(c, Sliced(FirstCut(c, render), p), p, render)
  {
    var cut := FirstCut(c, render);
    CutKeeps(c, render);
    LaterOfLatest(cut.timeline, ShortEntries(c.timeline, render), Min(|c.timeline|, 50), p.timeline);
    LaterOfLatest(cut.events, c.events, Min(|c.events|, 50), p.events);
    LaterOfLatest(cut.alerts, ShortAlerts(c.alerts, render), Min(|c.alerts|, 50), p.alerts);
  }

  lemma {:induction false} CutSpares(c: Context, render: Rendering)
    ensures var cut := FirstCut(c, render);
      && Spare(cut.timeline) == Less(Min(|c.timeline|, 50), 1) && Spare(cut.events) == Less(Min(|c.events|, 50), 1)
      && Spare(cut.alerts) == Less(Min(|c.alerts|, 50), 1) && Spare(cut.evidence) == Less(Min(|c.evidence|, 30), 1)
  {
  }

  lemma {:induction false} CutPops(c: Context, n: nat, render: Rendering)
    ensures PopsOf(FirstCut(c, render), n) == PopsTaken(c, n)
  {
    CutSpares(c, render);
    PopsInOrder(FirstCut(c, render), n);
  }

  /** How much trimming keeps of each list, and which part. */
  lemma {:induction false} TrimmingKeepsExactly(c: Context, n: nat, render: Rendering)
    ensures KeepsExactly(c, WithRefs(Drop(FirstCut(c, render), n)), n, render)
  {
    DropSlices(FirstCut(c, render), n);
    CutPops(c, n, render);
    SlicedKeeps(c, PopsTaken(c, n), render);
  }

  predicate WithinLimits(c: Context) {
    |c.timeline| <= 50 && |c.events| <= 50 && |c.alerts| <= 50 && |c.evidence| <= 30
  }

  /** All entries, with alerts and timeline entries shortened, and the incident marked. */
  function Shortened(c: Context, render: Rendering): Context {
    var members := c.incident.members;
    c.(timeline := ShortEntries(c.timeline, render), alerts := ShortAlerts(c.alerts, render),
       incident := Incident(c.incident.id, if FLAG in members then members else members + [FLAG]))
  }

  /** Within the limits the first cut loses no entry. */
  lemma {:induction false} WithinLimitsNothingIsCut(c: Context, render: Rendering)
    requires WithinLimits(c)
    ensures FirstCut(c, render) == Shortened(c, render)
  {
  }

  /** If the shortened context fits, it is what trimming ends with. */
  lemma {:induction false} ShortenedFits(c: Context, maxChars: int, render: Rendering)
    requires WithinLimits(c) && SizeOf(render)(Shortened(c, render)) <= maxChars
    ensures SizeOf(render)(Smallest(FirstCut(c, render))) <= maxChars
    ensures forall n: nat | LeastPops(FirstCut(c, render), n, maxChars, SizeOf(render)) ::
      Drop(FirstCut(c, render), n) == Shortened(c, render)
  {
    var cut := FirstCut(c, render);
    WithinLimitsNothingIsCut(c, render);
    SizeShrinks(render);
    DropEverything(cut);
    assert Drop(cut, 0) == Shortened(c, render) && SizeOf(render)(Drop(cut, 0)) <= maxChars;
    MorePopsAreSmaller(cut, 0, SpareItems(cut), SizeOf(render));
  }

  /** The least number of pops after which the first cut fits, with the references of what they leave. */
  ghost predicate Trimmed(c: Context, d: Context, n: nat, maxChars: int, render: Rendering) {
    && LeastPops(FirstCut(c, render), n, maxChars, SizeOf(render)) && d == WithRefs(Drop(FirstCut(c, render), n))
    && KeepsExactly(c, d, n, render)
  }

  lemma {:induction false} TrimmedFits(c: Context, n: nat, maxChars: int, render: Rendering)
    requires LeastPops(FirstCut(c, render), n, maxChars, SizeOf(render))
    ensures var d := WithRefs(Drop(FirstCut(c, render), n));
      Trimmed(c, d, n, maxChars, render) && (Covered(c) ==> Size(d, render) <= maxChars)
  {
    TrimmingKeepsExactly(c, n, render);
    if Covered(c) {
      RebuiltRefsFit(c, n, render);
    }
  }

  /** The shortened context fits without losing an entry. */
  predicate FitsShortened(c: Context, maxChars: int, render: Rendering) {
    WithinLimits(c) && SizeOf(render)(Shortened(c, render)) <= maxChars
  }

  /** What is done with a context that is too large. */
  method Trim(context: Context, maxChars: int, render: Rendering) returns (r: Option<Context>)
    ensures r.None? <==> SizeOf(render)(Smallest(FirstCut(context, render))) > maxChars
    ensures r.Some? ==> exists n: nat :: Trimmed(context, r.value, n, maxChars, render)
    ensures FitsShortened(context, maxChars, render) ==> r == Some(WithRefs(Shortened(context, render)))
    ensures r.Some? && Covered(context) ==> SizeOf(render)(r.value) <= maxChars
  {
    SizeShrinks(render);
    if FitsShortened(context, maxChars, render) {
      ShortenedFits(context, maxChars, render);
    }
    var cut := FirstCut(context, render);
    var trimmed := PopUntilFits(cut, maxChars, SizeOf(render));
    if trimmed.None? {
      return None;
    }
    ghost var n: nat :| LeastPops(cut, n, maxChars, SizeOf(render)) && trimmed.value == Drop(cut, n);
    TrimmedFits(context, n, maxChars, render);
    r := Some(WithRefs(trimmed.value));
  }

  /** `None` stands for `InvestigationContextTooLargeError`. */
  method EnforceSize(context: Context, maxChars: int, render: Rendering) returns (r: Option<Context>)
    ensures Size(context, render) <= maxChars ==> r == Some(context)
    ensures r.None? <==> Size(context, render) > maxChars && Size(Smallest(FirstCut(context, render)), render) > maxChars
    ensures r.Some? && Size(context, render) > maxChars ==> exists n: nat :: Trimmed(context, r.value, n, maxChars, render)
    ensures Size(context, render) > maxChars && FitsShortened(context, maxChars, render) ==>
      r == Some(WithRefs(Shortened(context, render)))
    ensures r.Some? && Covered(context) ==> Size(r.value, render) <= maxChars
  {
    if Size(context, render) <= maxChars {
      return Some(context);
    }
    r := Trim(context, maxChars, render);
  }

  // ---------------------------------------------------------------- main results

  ghost predicate IsSuffix<T>(part: seq<T>, whole: seq<T>) {
    |part| <= |whole| && part == whole[|whole| - |part|..]
  }

  ghost predicate KeepsEnds(c: Context, d: Context, render: Rendering) {
    && IsSuffix(d.timeline, ShortEntries(c.timeline, render))
    && IsSuffix(d.events, c.events)
    && IsSuffix(d.alerts, ShortAlerts(c.alerts, render))
    && d.evidence <= c.evidence
    && d.techniques == c.techniques && d.incident.id == c.incident.id && FLAG in d.incident.members
  }

  lemma {:induction false} SlicingKeepsEnds(c: Context, p: Pops, render: Rendering)
    requires Leaves(FirstCut(c, render), p)
    ensures KeepsEnds(c, Sliced(FirstCut(c, render), p), render)
  {
    ShortEntriesLast(c.timeline, 50, render);
    ShortAlertsLast(c.alerts, 50, render);
    LastIsSuffix(ShortEntries(c.timeline, render), 50, p.timeline);
    LastIsSuffix(c.events, 50, p.events);
    LastIsSuffix(ShortAlerts(c.alerts, render), 50, p.alerts);
  }

  /** What trimming keeps: the latest timeline entries, alerts and events, and the first evidence, in order. */
  lemma {:induction false} TrimmingKeepsEnds(c: Context, n: nat, render: Rendering)
    ensures KeepsEnds(c, WithRefs(Drop(FirstCut(c, render), n)), render)
  {
    DropSlices(FirstCut(c, render), n);
    SlicingKeepsEnds(c, PopsOf(FirstCut(c, render), n), render);
  }

  lemma LastIsSuffix<T>(s: seq<T>, n: nat, k: nat)
    requires k <= |Last(s, n)|
    ensures IsSuffix(Last(s, n)[k..], s)
  {
  }

  lemma ShortEntriesLast(timeline: seq<string>, n: nat, render: Rendering)
    ensures ShortEntries(Last(timeline, n), render) == Last(ShortEntries(timeline, render), n)
  {
  }

  lemma ShortAlertsLast(alerts: seq<Item>, n: nat, render: Rendering)
    ensures ShortAlerts(Last(alerts, n), render) == Last(ShortAlerts(alerts, render), n)
  {
  }

  /** No list that had entries is emptied. */
  lemma {:induction false} TrimmingEmptiesNothing(c: Context, n: nat, render: Rendering)
    ensures var d := WithRefs(Drop(FirstCut(c, render), n));
      && (d.timeline == [] <==> c.timeline == []) && (d.events == [] <==> c.events == [])
      && (d.alerts == [] <==> c.alerts == []) && (d.evidence == [] <==> c.evidence == [])
  {
    DropEmptiesNothing(FirstCut(c, render), n);
  }

  lemma {:induction false} DropEmptiesNothing(c: Context, n: nat)
    ensures var d := Drop(c, n);
      && (d.timeline == [] <==> c.timeline == []) && (d.events == [] <==> c.events == [])
      && (d.alerts == [] <==> c.alerts == []) && (d.evidence == [] <==> c.evidence == [])
    decreases n
  {
    if n > 0 {
      DropEmptiesNothing(c, n - 1);
    }
  }

  /** After trimming, the references are exactly those of what was kept, each once and in order. */
  lemma TrimmedRefsResolve(c: Context, ref: string)
    ensures Ascending(WithRefs(c).refs) && Distinct(WithRefs(c).refs)
    ensures ref in WithRefs(c).refs <==>
      || (exists i | 0 <= i < |c.alerts| :: c.alerts[i].ref == ref)
      || (exists i | 0 <= i < |c.events| :: c.events[i].ref == ref)
      || (exists i | 0 <= i < |c.evidence| :: c.evidence[i].ref == ref)
      || (c.incident.id != "" && ref == "incident:" + c.incident.id)
      || (exists i | 0 <= i < |c.techniques| :: "mitre:" + c.techniques[i].id == ref)
  {
    SortedSetAscends(OwnRefs(c));
    AscendingIsDistinct(WithRefs(c).refs);
    RefOfItem(c.alerts, ref);
    RefOfItem(c.events, ref);
    RefOfItem(c.evidence, ref);
    RefOfTechnique(c.techniques, ref);
  }

  lemma RefOfItem(items: seq<Item>, ref: string)
    ensures ref in ItemRefs(items) <==> exists i | 0 <= i < |items| :: items[i].ref == ref
  {
    if i :| 0 <= i < |items| && items[i].ref == ref {
      assert ItemRefs(items)[i] == ref;
    }
  }

  lemma RefOfTechnique(items: seq<Technique>, ref: string)
    ensures ref in TechniqueRefs(items) <==> exists i | 0 <= i < |items| :: "mitre:" + items[i].id == ref
  {
    if i :| 0 <= i < |items| && "mitre:" + items[i].id == ref {
      assert TechniqueRefs(items)[i] == ref;
    }
  }
}
