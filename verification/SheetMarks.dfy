/**
 Marks of the problem sheets: manual, automatic and dismissed rows, kept in browser storage
 (apps/web/src/lib/sheets.ts:48-207, 279-297). A JavaScript set is a list without duplicates in
 insertion order.
 */
module SheetMarks {
  import opened Options
  import opened JsText

  // ---- keys

  predicate IdChar(c: char) { 'a' <= c <= 'z' || '0' <= c <= '9' || c == '-' }

  predicate IdText(s: string) { s != "" && forall i :: 0 <= i < |s| ==> IdChar(s[i]) }

  predicate DigitText(s: string) { s != "" && forall i :: 0 <= i < |s| ==> IsDigit(s[i]) }

  /** `<track>/<step>/<order>`. */
  predicate IsSheetKey(k: string) {
    var parts := Split(k, '/');
    |parts| == 3 && IdText(parts[0]) && IdText(parts[1]) && DigitText(parts[2])
  }

  const MAX_KEY: nat := 120

  /** What `normalizeSheetKeys` keeps of trimmed texts. */
  predicate Keeps(t: string) { t != "" && |t| <= MAX_KEY && IsSheetKey(t) }

  predicate Storable(k: string) { Trimmed(k) && Keeps(k) }

  ghost predicate Distinct(s: seq<string>) {
    forall i, j :: 0 <= i < j < |s| ==> s[i] != s[j]
  }

  ghost predicate AllStorable(s: seq<string>) { forall k :: k in s ==> Storable(k) }

  function Each(v: seq<string>, f: string -> string): seq<string> {
    if v == [] then [] else Each(v[..|v| - 1], f) + [f(v[|v| - 1])]
  }

  lemma {:induction false} EachAppend(a: seq<string>, b: seq<string>, f: string -> string)
    ensures Each(a + b, f) == Each(a, f) + Each(b, f)
  {
    if b == [] {
      assert a + b == a;
    } else {
      var front, x := b[..|b| - 1], b[|b| - 1];
      EachAppend(a, front, f);
      var s := a + b;
      assert s[|s| - 1] == x && s[..|s| - 1] == a + front;
      Assoc(Each(a, f), Each(front, f), [f(x)]);
    }
  }

  function TrimEach(v: seq<string>): seq<string> { Each(v, Trim) }

  /** The trimmed texts that are kept, each at its first occurrence. */
  function TrimUnique(v: seq<string>, keep: string -> bool): (r: seq<string>)
    ensures Distinct(r) && forall k :: k in r ==> keep(k) && Trimmed(k)
  {
    if v == [] then []
    else
      var rest := TrimUnique(v[..|v| - 1], keep);
      var t := Trim(v[|v| - 1]);
      if !keep(t) || t in rest then rest else rest + [t]
  }

  lemma {:induction false} TrimUniqueMembers(v: seq<string>, keep: string -> bool, k: string)
    ensures k in TrimUnique(v, keep) <==> keep(k) && k in TrimEach(v)
  {
    if v != [] {
      var front, x := v[..|v| - 1], v[|v| - 1];
      TrimUniqueMembers(front, keep, k);
    }
  }

  lemma TrimUniqueDrops(v: seq<string>, keep: string -> bool, k: string)
    requires !keep(Trim(k))
    ensures TrimUnique(v + [k], keep) == TrimUnique(v, keep)
  {
    assert (v + [k])[..|v|] == v;
  }

  lemma TrimUniqueTakes(front: seq<string>, t: string, keep: string -> bool)
    requires keep(t) && Trimmed(t) && t !in TrimUnique(front, keep)
    ensures TrimUnique(front + [t], keep) == TrimUnique(front, keep) + [t]
  {
    assert (front + [t])[..|front|] == front;
  }

  lemma {:induction false} TrimUniqueIdempotent(v: seq<string>, keep: string -> bool)
    requires Distinct(v) && forall k :: k in v ==> keep(k) && Trimmed(k)
    ensures TrimUnique(v, keep) == v
  {
    if v != [] {
      var front, t := v[..|v| - 1], v[|v| - 1];
      assert t in v && t !in front && v == front + [t];
      assert forall k :: k in front ==> k in v;
      TrimUniqueIdempotent(front, keep);
      TrimUniqueTakes(front, t, keep);
    }
  }

  function Normalize(v: seq<string>): (r: seq<string>)
    ensures Distinct(r) && AllStorable(r)
  {
    TrimUnique(v, Keeps)
  }

  method NormalizeSheetKeys(v: seq<string>) returns (out: seq<string>)
    ensures out == Normalize(v)
  {
    out := [];
    var seen: set<string> := {};
    for i := 0 to |v|
      invariant out == TrimUnique(v[..i], Keeps)
      invariant forall k :: k in seen <==> k in out
    {
      assert v[..i + 1][..i] == v[..i];
      var t := Trim(v[i]);
      if !Keeps(t) || t in seen { continue; }
      seen := seen + {t};
      out := out + [t];
    }
    assert v[..|v|] == v;
  }

  lemma NormalizeIdempotent(v: seq<string>)
    requires Distinct(v) && AllStorable(v)
    ensures Normalize(v) == v
  {
    TrimUniqueIdempotent(v, Keeps);
  }

  // ---- sets as lists

  function Without(xs: seq<string>, ys: seq<string>): (r: seq<string>)
    ensures forall k :: k in r <==> k in xs && k !in ys
    ensures Distinct(xs) ==> Distinct(r)
    ensures (forall k :: k in xs ==> k !in ys) ==> r == xs
  {
    if xs == [] then []
    else
      var front, x := xs[..|xs| - 1], xs[|xs| - 1];
      assert xs == front + [x];
      if x in ys then Without(front, ys) else Without(front, ys) + [x]
  }

  function Delete(xs: seq<string>, k: string): (r: seq<string>)
    ensures forall x :: x in r <==> x in xs && x != k
    ensures Distinct(xs) ==> Distinct(r)
  {
    Without(xs, [k])
  }

  function Add(xs: seq<string>, k: string): (r: seq<string>)
    ensures forall x :: x in r <==> x in xs || x == k
    ensures Distinct(xs) ==> Distinct(r)
  {
    if k in xs then xs else xs + [k]
  }

  // ---- marks

  /** `meta` stands for the handles and fetch time that travel with the marks. */
  datatype Marks = Marks(manual: seq<string>, auto: seq<string>, dismissed: seq<string>, meta: Option<string>)

  ghost predicate Tidy(m: Marks) {
    && Distinct(m.manual) && Distinct(m.auto) && Distinct(m.dismissed)
    && (forall k :: k in m.manual ==> k !in m.auto && k !in m.dismissed)
    && (forall k :: k in m.auto ==> k !in m.dismissed)
  }

  ghost predicate FullyStorable(m: Marks) {
    AllStorable(m.manual) && AllStorable(m.auto) && AllStorable(m.dismissed)
  }

  /** What loading, saving and every operation make of a list of marks: manual wins, then auto. */
  function Clean(m: Marks): (r: Marks)
    ensures Tidy(r) && FullyStorable(r) && r.meta == m.meta
  {
    var manual := Normalize(m.manual);
    var auto := Without(Normalize(m.auto), manual);
    Marks(manual, auto, Without(Without(Normalize(m.dismissed), manual), auto), m.meta)
  }

  lemma CleanKeeps(m: Marks)
    requires Tidy(m) && FullyStorable(m)
    ensures Clean(m) == m
  {
    NormalizeIdempotent(m.manual);
    NormalizeIdempotent(m.auto);
    NormalizeIdempotent(m.dismissed);
  }

  /** The rows shown as done. */
  function Combined(m: Marks): set<string> {
    var c := Clean(m);
    set k | k in c.manual + c.auto
  }

  /** The three-way toggle on clean marks. */
  function Flip(c: Marks, k: string): Marks {
    if k in c.manual then c.(manual := Delete(c.manual, k))
    else if k in c.auto then c.(auto := Delete(c.auto, k), dismissed := Add(c.dismissed, k))
    else c.(manual := Add(c.manual, k), dismissed := Delete(c.dismissed, k))
  }

  function Toggle(base: Marks, key: string): Marks {
    if !IsSheetKey(Trim(key)) then base else Flip(Clean(base), Trim(key))
  }

  /** The auto marks after offering the keys, in order. */
  function Offered(c: Marks, keys: seq<string>): (r: seq<string>)
    requires Tidy(c)
    ensures forall k :: k in r <==> k in c.auto || (k in keys && k !in c.manual && k !in c.dismissed)
    ensures Distinct(r)
  {
    if keys == [] then c.auto
    else
      var front, k := keys[..|keys| - 1], keys[|keys| - 1];
      assert keys == front + [k];
      if k in c.manual || k in c.dismissed then Offered(c, front) else Add(Offered(c, front), k)
  }

  method OfferEach(c: Marks, keys: seq<string>) returns (auto: seq<string>)
    requires Tidy(c)
    ensures auto == Offered(c, keys)
  {
    auto := c.auto;
    for i := 0 to |keys|
      invariant auto == Offered(c, keys[..i])
    {
      assert keys[..i + 1][..i] == keys[..i];
      var k := keys[i];
      if k in c.manual || k in c.dismissed || k in auto { continue; }
      auto := auto + [k];
    }
    assert keys[..|keys|] == keys;
  }

  function Feed(base: Marks, solved: seq<string>, meta: Option<string>): Marks {
    var c := Clean(base);
    c.(auto := Offered(c, Normalize(solved)), meta := if meta.Some? then meta else base.meta)
  }

  // ---- storage

  /** The stored text, already parsed; `Corrupt` is text that does not parse. */
  datatype Stored<T> = Absent | Corrupt | Parsed(value: T)

  function Loaded(v1: Stored<seq<string>>, v2: Stored<Marks>): Marks {
    match v2
    case Parsed(m) => Clean(m)
    case Corrupt => Marks([], [], [], None)
    case Absent => Marks(if v1.Parsed? then Normalize(v1.value) else [], [], [], None)
  }

  class SheetStore {
    var v1: Stored<seq<string>>
    var v2: Stored<Marks>
    var writable: bool  // false in private mode: `setItem` throws and the write is dropped

    constructor (v1: Stored<seq<string>>, v2: Stored<Marks>, writable: bool)
      ensures this.v1 == v1 && this.v2 == v2 && this.writable == writable
    {
      this.v1, this.v2, this.writable := v1, v2, writable;
    }

    method Load() returns (m: Marks)
      ensures m == Loaded(v1, v2)
    {
      match v2
      case Parsed(p) =>
        var manual := NormalizeSheetKeys(p.manual);
        var auto := NormalizeSheetKeys(p.auto);
        var dismissed := NormalizeSheetKeys(p.dismissed);
        auto := Without(auto, manual);
        m := Marks(manual, auto, Without(Without(dismissed, manual), auto), p.meta);
      case Corrupt => m := Marks([], [], [], None);
      case Absent =>
        var done: seq<string> := [];
        if v1.Parsed? { done := NormalizeSheetKeys(v1.value); }
        m := Marks(done, [], [], None);
    }

    method Save(m: Marks)
      modifies this`v2
      ensures v2 == if writable then Parsed(Clean(m)) else old(v2)
    {
      if writable { v2 := Parsed(Clean(m)); }
    }

    method ToggleMark(key: string, current: Option<Marks>) returns (next: Marks)
      modifies this`v2
      ensures var base := if current.Some? then current.value else old(Loaded(v1, v2));
        && next == Toggle(base, key)
        && v2 == (if writable && IsSheetKey(Trim(key)) then Parsed(Clean(next)) else old(v2))
    {
      var base;
      if current.Some? { base := current.value; } else { base := Load(); }
      var k := Trim(key);
      if !IsSheetKey(k) { return base; }
      var c := Clean(base);
      if k in c.manual {
        c := c.(manual := Delete(c.manual, k));
      } else if k in c.auto {
        c := c.(auto := Delete(c.auto, k));
        c := c.(dismissed := Add(c.dismissed, k));
      } else {
        c := c.(manual := Add(c.manual, k));
        c := c.(dismissed := Delete(c.dismissed, k));
      }
      next := c;
      Save(next);
    }

    method ApplyAutoMarks(solved: seq<string>, current: Option<Marks>, meta: Option<string>) returns (next: Marks)
      modifies this`v2
      ensures var base := if current.Some? then current.value else old(Loaded(v1, v2));
        next == Feed(base, solved, meta) && v2 == (if writable then Parsed(Clean(next)) else old(v2))
    {
      var base;
      if current.Some? { base := current.value; } else { base := Load(); }
      var c := Clean(base);
      var incoming := NormalizeSheetKeys(solved);
      var auto := OfferEach(c, incoming);
      next := c.(auto := auto, meta := if meta.Some? then meta else base.meta);
      Save(next);
    }
  }

  // ---- single operations

  lemma FlipTidy(c: Marks, k: string)
    requires Tidy(c)
    ensures Tidy(Flip(c, k))
    ensures forall x :: x in Flip(c, k).manual || x in Flip(c, k).auto <==>
      if x == k then k !in c.manual && k !in c.auto else x in c.manual || x in c.auto
    ensures forall x :: x != k ==> (x in Flip(c, k).dismissed <==> x in c.dismissed)
  {
  }

  lemma FlipStorable(c: Marks, k: string)
    requires Tidy(c) && FullyStorable(c) && Storable(k)
    ensures FullyStorable(Flip(c, k)) && Clean(Flip(c, k)) == Flip(c, k)
  {
    FlipTidy(c, k);
    CleanKeeps(Flip(c, k));
  }

  /** A key that is too long is added to the manual list and dropped by every later cleaning. */
  lemma FlipTooLong(c: Marks, k: string)
    requires Tidy(c) && FullyStorable(c) && Trimmed(k) && |k| > MAX_KEY
    ensures Flip(c, k).manual == c.manual + [k] && Clean(Flip(c, k)) == c
  {
    CleanKeeps(c);
    NotStorable(c.manual, k);
    NotStorable(c.auto, k);
    NotStorable(c.dismissed, k);
    FlipShape(c, k);
    CleanDrops(c, k);
  }

  lemma NotStorable(v: seq<string>, k: string)
    requires AllStorable(v) && |k| > MAX_KEY
    ensures k !in v
  {
    assert k in v ==> Storable(k);
  }

  lemma FlipShape(c: Marks, k: string)
    requires k !in c.manual && k !in c.auto && k !in c.dismissed
    ensures Flip(c, k) == Marks(c.manual + [k], c.auto, c.dismissed, c.meta)
  {
    assert Delete(c.dismissed, k) == c.dismissed;
  }

  lemma CleanDrops(c: Marks, k: string)
    requires !Keeps(Trim(k))
    ensures Clean(Marks(c.manual + [k], c.auto, c.dismissed, c.meta)) == Clean(c)
  {
    TrimUniqueDrops(c.manual, Keeps, k);
  }

  lemma SheetKeyNonEmpty(k: string)
    requires IsSheetKey(k)
    ensures k != ""
  {
  }

  /** Toggling keeps the three lists duplicate-free and disjoint, and storable unless the key is too long. */
  lemma ToggleTidy(base: Marks, key: string)
    requires Tidy(base)
    ensures Tidy(Toggle(base, key))
    ensures FullyStorable(base) ==>
      (FullyStorable(Toggle(base, key)) <==> |Trim(key)| <= MAX_KEY || !IsSheetKey(Trim(key)))
  {
    var k := Trim(key);
    if IsSheetKey(k) {
      SheetKeyNonEmpty(k);
      FlipTidy(Clean(base), k);
      if |k| <= MAX_KEY {
        FlipStorable(Clean(base), k);
      } else {
        FlipTooLong(Clean(base), k);
        assert k in Toggle(base, key).manual && !Storable(k);
      }
    }
  }

  /** Toggling flips the row and no other, exactly when the key is short enough to be stored. */
  lemma ToggleFlips(base: Marks, key: string)
    requires IsSheetKey(Trim(key))
    ensures forall x :: x != Trim(key) ==> (x in Combined(Toggle(base, key)) <==> x in Combined(base))
    ensures (Trim(key) in Combined(Toggle(base, key)) <==> Trim(key) !in Combined(base)) <==> |Trim(key)| <= MAX_KEY
  {
    var k := Trim(key);
    SheetKeyNonEmpty(k);
    FlipTidy(Clean(base), k);
    if |k| <= MAX_KEY {
      FlipStorable(Clean(base), k);
    } else {
      FlipTooLong(Clean(base), k);
    }
  }

  lemma FeedTidy(base: Marks, solved: seq<string>, meta: Option<string>)
    ensures Tidy(Feed(base, solved, meta)) && FullyStorable(Feed(base, solved, meta))
  {
  }

  /** A feed removes no mark and touches neither manual nor dismissed rows. */
  lemma FeedOnlyAdds(base: Marks, solved: seq<string>, meta: Option<string>)
    ensures var next := Feed(base, solved, meta);
      && Combined(base) <= Combined(next)
      && next.manual == Clean(base).manual && next.dismissed == Clean(base).dismissed
      && forall k :: k in next.auto ==> k !in next.dismissed
  {
    FeedTidy(base, solved, meta);
    CleanKeeps(Feed(base, solved, meta));
  }

  lemma NormalizeUnites(a: seq<string>, b: seq<string>)
    ensures forall k :: k in Normalize(a + b) <==> k in Normalize(a) || k in Normalize(b)
  {
    forall k ensures k in Normalize(a + b) <==> k in Normalize(a) || k in Normalize(b) {
      TrimUniqueMembers(a, Keeps, k);
      TrimUniqueMembers(b, Keeps, k);
      TrimUniqueMembers(a + b, Keeps, k);
      EachAppend(a, b, Trim);
    }
  }

  lemma OffersUnite(c: Marks, a: seq<string>, b: seq<string>, both: seq<string>)
    requires Tidy(c) && forall k :: k in both <==> k in a || k in b
    ensures Tidy(c.(auto := Offered(c, a)))
    ensures forall k :: k in Offered(c.(auto := Offered(c, a)), b) <==> k in Offered(c, both)
  {
  }

  /** Feeding in two portions marks the same rows as feeding everything at once. */
  lemma FeedsUnite(base: Marks, a: seq<string>, b: seq<string>, meta: Option<string>)
    ensures var twice, once := Feed(Feed(base, a, meta), b, meta), Feed(base, a + b, meta);
      && twice.manual == once.manual && twice.dismissed == once.dismissed
      && (forall k :: k in twice.auto <==> k in once.auto)
  {
    FeedTidy(base, a, meta);
    CleanKeeps(Feed(base, a, meta));
    NormalizeUnites(a, b);
    var c := Clean(base).(meta := Feed(base, a, meta).meta);
    SameOffers(Clean(base), c, Normalize(a));
    SameOffers(Clean(base), c, Normalize(a + b));
    OffersUnite(c, Normalize(a), Normalize(b), Normalize(a + b));
  }

  /** What is offered does not depend on the handles and times. */
  lemma {:induction false} SameOffers(c: Marks, d: Marks, keys: seq<string>)
    requires Tidy(c) && d == c.(meta := d.meta)
    ensures Offered(c, keys) == Offered(d, keys)
  {
    if keys != [] { SameOffers(c, d, keys[..|keys| - 1]); }
  }

  /** Saving and loading returns the same marks exactly when they are tidy and storable. */
  lemma SaveThenLoad(m: Marks, v1: Stored<seq<string>>)
    ensures Loaded(v1, Parsed(Clean(m))) == m <==> Tidy(m) && FullyStorable(m)
  {
    CleanKeeps(Clean(m));
    if Tidy(m) && FullyStorable(m) { CleanKeeps(m); }
  }

  // ---- whole sessions

  /** What a page does to the marks. `saved` says whether storage accepts the write; it may refuse any of them. */
  datatype Op =
    | ToggleRow(key: string, saved: bool)
    | FeedRows(solved: seq<string>, meta: Option<string>, saved: bool)
    | SaveMarks(saved: bool)
    | Reload

  /** What storage holds and what the page holds. */
  datatype Session = Session(v1: Stored<seq<string>>, v2: Stored<Marks>, current: Marks)

  /** The page goes on with the marks `next`, and storage takes them when it writes. */
  function Continue(s: Session, next: Marks, writes: bool): Session {
    Session(s.v1, if writes then Parsed(Clean(next)) else s.v2, next)
  }

  /** The operation changes storage. */
  predicate Saves(op: Op) {
    match op
    case ToggleRow(key, saved) => saved && IsSheetKey(Trim(key))
    case FeedRows(_, _, saved) => saved
    case SaveMarks(saved) => saved
    case Reload => false
  }

  function Do(s: Session, op: Op): Session {
    match op
    case ToggleRow(key, _) => Continue(s, Toggle(s.current, key), Saves(op))
    case FeedRows(solved, meta, _) => Continue(s, Feed(s.current, solved, meta), Saves(op))
    case SaveMarks(_) => Continue(s, s.current, Saves(op))
    case Reload => Continue(s, Loaded(s.v1, s.v2), false)
  }

  function DoAll(s: Session, ops: seq<Op>): Session {
    if ops == [] then s else Do(DoAll(s, ops[..|ops| - 1]), ops[|ops| - 1])
  }

  /** A session starts by loading. */
  function Opened(v1: Stored<seq<string>>, v2: Stored<Marks>): Session {
    Session(v1, v2, Loaded(v1, v2))
  }

  /** The marks that a reload would give. */
  function Remembered(s: Session): Marks { Loaded(s.v1, s.v2) }

  lemma LoadedIsClean(v1: Stored<seq<string>>, v2: Stored<Marks>)
    ensures Tidy(Loaded(v1, v2)) && FullyStorable(Loaded(v1, v2)) && Clean(Loaded(v1, v2)) == Loaded(v1, v2)
  {
    CleanKeeps(Loaded(v1, v2));
  }

  lemma DoKeepsTidy(s: Session, op: Op)
    requires Tidy(s.current)
    ensures Tidy(Do(s, op).current)
  {
    LoadedIsClean(s.v1, s.v2);
    match op
    case ToggleRow(key, _) => ToggleTidy(s.current, key);
    case FeedRows(solved, meta, _) => FeedTidy(s.current, solved, meta);
    case SaveMarks(_) =>
    case Reload =>
  }

  /** In every session, whatever storage refuses, the three lists stay duplicate-free and disjoint. */
  lemma {:induction false} SessionsStayTidy(v1: Stored<seq<string>>, v2: Stored<Marks>, ops: seq<Op>)
    ensures Tidy(DoAll(Opened(v1, v2), ops).current)
  {
    hide Tidy;
    if ops == [] {
      LoadedIsClean(v1, v2);
    } else {
      SessionsStayTidy(v1, v2, ops[..|ops| - 1]);
      DoKeepsTidy(DoAll(Opened(v1, v2), ops[..|ops| - 1]), ops[|ops| - 1]);
    }
  }

  /** How many operations there are up to the last one that changed storage. */
  function LastSave(ops: seq<Op>): (n: nat)
    ensures n <= |ops|
  {
    if ops == [] then 0 else if Saves(ops[|ops| - 1]) then |ops| else LastSave(ops[..|ops| - 1])
  }

  /** A saving operation makes storage remember the page's marks, any other leaves storage alone. */
  lemma DoRemembers(s: Session, op: Op)
    ensures Remembered(Do(s, op)) == if Saves(op) then Clean(Do(s, op).current) else Remembered(s)
  {
    CleanKeeps(Clean(Do(s, op).current));
  }

  /** In every session, a reload gives exactly the marks that the page had at the last write that storage accepted. */
  lemma {:induction false} ReloadGivesLastSave(v1: Stored<seq<string>>, v2: Stored<Marks>, ops: seq<Op>)
    ensures Remembered(DoAll(Opened(v1, v2), ops)) == Clean(DoAll(Opened(v1, v2), ops[..LastSave(ops)]).current)
  {
    hide Do, Saves, Remembered, Clean;
    var start := Opened(v1, v2);
    if ops == [] {
      OpenedRemembers(v1, v2);
    } else {
      var front, op := ops[..|ops| - 1], ops[|ops| - 1];
      DoRemembers(DoAll(start, front), op);
      ReloadGivesLastSave(v1, v2, front);
      if Saves(op) {
        assert ops[..LastSave(ops)] == ops;
      } else {
        assert ops[..LastSave(ops)] == front[..LastSave(front)];
      }
    }
  }

  lemma OpenedRemembers(v1: Stored<seq<string>>, v2: Stored<Marks>)
    ensures Remembered(Opened(v1, v2)) == Clean(Opened(v1, v2).current)
  {
    LoadedIsClean(v1, v2);
  }

  /** Storage refuses no write. */
  ghost predicate AllSaved(ops: seq<Op>) {
    forall i :: 0 <= i < |ops| ==> match ops[i]
      case ToggleRow(_, saved) => saved
      case FeedRows(_, _, saved) => saved
      case SaveMarks(saved) => saved
      case Reload => true
  }

  lemma DoStaysInStep(s: Session, op: Op)
    requires Remembered(s) == Clean(s.current) && AllSaved([op])
    ensures Remembered(Do(s, op)) == Clean(Do(s, op).current)
  {
    DoRemembers(s, op);
    assert [op][0] == op;
    LoadedIsClean(s.v1, s.v2);
  }

  /** When storage refuses no write, a reload never changes which rows are shown as done. */
  lemma {:induction false} SessionsStayInStep(v1: Stored<seq<string>>, v2: Stored<Marks>, ops: seq<Op>)
    requires AllSaved(ops)
    ensures var s := DoAll(Opened(v1, v2), ops);
      Remembered(s) == Clean(s.current) && Combined(Do(s, Reload).current) == Combined(s.current)
  {
    hide Do, Clean;
    if ops == [] {
      OpenedRemembers(v1, v2);
    } else {
      var front, op := ops[..|ops| - 1], ops[|ops| - 1];
      assert AllSaved(front) && AllSaved([op]);
      SessionsStayInStep(v1, v2, front);
      DoStaysInStep(DoAll(Opened(v1, v2), front), op);
    }
    ReloadShowsRemembered(DoAll(Opened(v1, v2), ops));
  }

  lemma ReloadShowsRemembered(s: Session)
    ensures Combined(Do(s, Reload).current) == set k | k in Remembered(s).manual + Remembered(s).auto
  {
    LoadedIsClean(s.v1, s.v2);
  }

  // ---- dismissed rows

  predicate Toggles(op: Op, k: string) { op.ToggleRow? && Trim(op.key) == k }

  predicate Dismisses(m: Marks, k: string) { k in Clean(m).dismissed }

  lemma ToggleKeepsOthers(base: Marks, key: string, k: string)
    requires Trim(key) != k
    ensures Dismisses(Toggle(base, key), k) <==> Dismisses(base, k)
  {
    var t := Trim(key);
    if IsSheetKey(t) {
      SheetKeyNonEmpty(t);
      FlipTidy(Clean(base), t);
      if |t| <= MAX_KEY {
        FlipStorable(Clean(base), t);
      } else {
        FlipTooLong(Clean(base), t);
      }
    }
  }

  lemma FeedKeepsDismissed(base: Marks, solved: seq<string>, meta: Option<string>, k: string)
    ensures Dismisses(Feed(base, solved, meta), k) <==> Dismisses(base, k)
  {
    FeedOnlyAdds(base, solved, meta);
    FeedTidy(base, solved, meta);
    CleanKeeps(Feed(base, solved, meta));
  }

  /** Short of toggling the row, only a reload can change whether the page holds it as dismissed. */
  lemma DoKeepsDismissed(s: Session, op: Op, k: string)
    requires !Toggles(op, k)
    ensures Dismisses(Do(s, op).current, k) <==> Dismisses(if op.Reload? then Remembered(s) else s.current, k)
  {
    hide Dismisses, Toggle, Feed, Loaded;
    match op
    case ToggleRow(key, _) => ToggleKeepsOthers(s.current, key, k);
    case FeedRows(solved, meta, _) => FeedKeepsDismissed(s.current, solved, meta, k);
    case SaveMarks(_) =>
    case Reload =>
  }

  lemma CleanDismisses(m: Marks, k: string)
    ensures Dismisses(Clean(m), k) <==> Dismisses(m, k)
  {
    CleanKeeps(Clean(m));
  }

  /** A dismissed row is on the page only, or also in storage, or in neither. */
  datatype Fate = Pending | Kept | Lost

  function FateOf(ops: seq<Op>, stored: bool): Fate {
    if ops == [] then (if stored then Kept else Pending)
    else
      var before, op := FateOf(ops[..|ops| - 1], stored), ops[|ops| - 1];
      if before != Pending then before else if op.Reload? then Lost else if Saves(op) then Kept else Pending
  }

  ghost predicate NoToggle(ops: seq<Op>, k: string) { forall i :: 0 <= i < |ops| ==> !Toggles(ops[i], k) }

  lemma {:induction false} FateHolds(s: Session, ops: seq<Op>, k: string)
    requires Dismisses(s.current, k) && NoToggle(ops, k)
    ensures var t, fate := DoAll(s, ops), FateOf(ops, Dismisses(Remembered(s), k));
      (Dismisses(t.current, k) <==> fate != Lost) && (Dismisses(Remembered(t), k) <==> fate == Kept)
  {
    hide Dismisses, Do, Saves, Remembered, Toggles;
    if ops != [] {
      var front, op := ops[..|ops| - 1], ops[|ops| - 1];
      FateHolds(s, front, k);
      var t := DoAll(s, front);
      DoKeepsDismissed(t, op, k);
      DoRemembers(t, op);
      ReloadSavesNothing(op);
      CleanDismisses(Do(t, op).current, k);
    }
  }

  lemma ReloadSavesNothing(op: Op)
    ensures op.Reload? ==> !Saves(op)
  {
  }

  /** The page reloads before storage has accepted a write. */
  ghost predicate ReloadBeforeSave(ops: seq<Op>) {
    exists i :: 0 <= i < |ops| && ops[i].Reload? && forall j :: 0 <= j < i ==> !Saves(ops[j])
  }

  ghost predicate NoSave(ops: seq<Op>) { forall i :: 0 <= i < |ops| ==> !Saves(ops[i]) }

  lemma {:induction false} FateByOrder(ops: seq<Op>)
    ensures FateOf(ops, true) == Kept
    ensures FateOf(ops, false) == Lost <==> ReloadBeforeSave(ops)
    ensures FateOf(ops, false) == Pending <==> NoSave(ops) && !ReloadBeforeSave(ops)
  {
    hide Saves;
    if ops != [] {
      var front, op := ops[..|ops| - 1], ops[|ops| - 1];
      FateByOrder(front);
      ReloadSavesNothing(op);
      assert ops == front + [op];
      OneMoreOp(front, op);
    }
  }

  lemma OneMoreOp(front: seq<Op>, op: Op)
    ensures NoSave(front + [op]) <==> NoSave(front) && !Saves(op)
    ensures ReloadBeforeSave(front + [op]) <==> ReloadBeforeSave(front) || (op.Reload? && NoSave(front))
  {
    hide Saves;
    var ops := front + [op];
    assert forall i :: 0 <= i < |front| ==> ops[i] == front[i];
    if NoSave(ops) { assert ops[|front|] == op; }
    if ReloadBeforeSave(front) {
      var i :| 0 <= i < |front| && front[i].Reload? && forall j :: 0 <= j < i ==> !Saves(front[j]);
      assert ops[i].Reload?;
    }
    if op.Reload? && NoSave(front) { assert ops[|front|].Reload?; }
  }

  /**
   A dismissed row that the user does not toggle stays dismissed, hence is never auto-marked, exactly
   when storage holds it as dismissed, or the page does not reload before storage has accepted a write.
   */
  lemma DismissedUntilToggled(s: Session, ops: seq<Op>, k: string)
    requires Dismisses(s.current, k) && NoToggle(ops, k)
    ensures Dismisses(DoAll(s, ops).current, k) <==> Dismisses(Remembered(s), k) || !ReloadBeforeSave(ops)
  {
    FateHolds(s, ops, k);
    FateByOrder(ops);
  }

  /** After a reload that forgets a dismissal, the next feed shows the row as done again. */
  lemma ForgottenIsMarkedAgain(s: Session, k: string, meta: Option<string>, saved: bool)
    requires Storable(k) && !Dismisses(Remembered(s), k)
    ensures k in Combined(Do(Do(s, Reload), FeedRows([k], meta, saved)).current)
  {
    LoadedIsClean(s.v1, s.v2);
    NormalizeIdempotent([k]);
    FeedTidy(Remembered(s), [k], meta);
    CleanKeeps(Feed(Remembered(s), [k], meta));
    assert k in [k];
  }

  /** Private mode: a stored automatic mark is dismissed, the write is refused, and the page reloads. */
  lemma PrivateModeForgets(k: string)
    requires Storable(k)
    ensures var s := Opened(Absent, Parsed(Marks([], [k], [], None)));
      var t := Do(s, ToggleRow(k, false));
      Dismisses(t.current, k) && !Dismisses(Do(t, Reload).current, k)
  {
    var m := Marks([], [k], [], None);
    CleanKeeps(m);
    CleanKeeps(Flip(m, k));
    assert k in [k];
  }
}
