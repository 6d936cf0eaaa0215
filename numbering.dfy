/** The org prefix of a list item and the two stacks that number ordered items. */
module ListNumbering {
  import opened Wrappers
  import opened OrgStrings
  import opened Lists

  /** Copies of `s`, `n` times (`s * n`; nothing for `n <= 0`). */
  function Repeat(s: string, n: int): (r: string)
    ensures |r| == if n <= 0 then 0 else n * |s|
    decreases n
  {
    if n <= 0 then [] else s + Repeat(s, n - 1)
  }

  /**
   * `get_org_list_prefix`: two spaces per level, then a bullet from `-`, `+`, `*` by level
   * modulo 3, or `n. ` with `n` defaulting to 1; any other list type gives the empty string.
   */
  function ListPrefix(listType: string, level: int, itemNumber: Option<int>): string {
    var indent := Repeat("  ", level);
    if listType == "unordered" then indent + ["-+*"[level % 3]] + " "
    else if listType == "ordered" then indent + IntToString(if itemNumber.Some? then itemNumber.value else 1) + ". "
    else ""
  }

  function KindName(k: ListKind): string {
    match k
    case Unordered => "unordered"
    case Ordered => "ordered"
  }

  /** The prefix takes `2 * level` spaces, then its marker; for ordered items the marker reads back as the number. */
  lemma ListPrefixShape(k: ListKind, level: nat, n: Option<int>)
    ensures var r := ListPrefix(KindName(k), level, n);
      |r| >= 2 * level + 2 && IsBlank(r[..2 * level]) && r[|r| - 1] == ' '
      && (k == Unordered ==> |r| == 2 * level + 2 && r[2 * level] == ['-', '+', '*'][level % 3])
      && (k == Ordered ==> r[2 * level..] == IntToString(if n.Some? then n.value else 1) + ". ")
  {
    RepeatBlank(level);
    var r := ListPrefix(KindName(k), level, n);
    var indent := Repeat("  ", level);
    assert r[..2 * level] == indent;
    if k == Ordered {
      assert r == indent + (IntToString(if n.Some? then n.value else 1) + ". ");
    }
  }

  lemma {:induction false} RepeatBlank(n: nat)
    ensures IsBlank(Repeat("  ", n))
  {
    if n > 0 {
      RepeatBlank(n - 1);
    }
  }

  lemma OtherTypeNoPrefix(t: string, level: int, n: Option<int>)
    requires t != "unordered" && t != "ordered"
    ensures ListPrefix(t, level, n) == ""
  {
  }

  /** The two parallel stacks: the list type first met at each depth, and the next item number there. */
  datatype ListState = ListState(depth: seq<ListKind>, counters: seq<int>)

  /** Both stacks have the same height. */
  predicate Balanced(st: ListState) {
    |st.depth| == |st.counters|
  }

  /** `s` cut down to, or padded with `fill` up to, length `n`. */
  function Resize<T>(s: seq<T>, n: nat, fill: T): (r: seq<T>)
    ensures |r| == n
    ensures forall k :: 0 <= k < n && k < |s| ==> r[k] == s[k]
    ensures forall k :: |s| <= k < n ==> r[k] == fill
    decreases n
  {
    if n <= |s| then s[..n] else Resize(s, n - 1, fill) + [fill]
  }

  /**
   * The list branch of `process_paragraph`: pop both stacks down to `level + 1` entries,
   * push the type and counter 1 up to that height; an ordered item takes the counter at
   * its level, which then goes up by one; an unordered item sets it back to 1 and is
   * numbered 1. A negative level raises `IndexError` (`Err`): below -1 the popping runs
   * past the empty stacks, and at -1 the emptied counter list is indexed at `-1`, for an
   * ordered item to read it and for an unordered one to reset it (`-1 < 0` holds).
   */
  function ListStep(st: ListState, kind: ListKind, level: int): (r: Result<(ListState, int), string>)
    requires Balanced(st)
    ensures r.Ok? <==> level >= 0
    ensures r.Ok? ==> Balanced(r.value.0) && |r.value.0.depth| == level + 1
  {
    if level < 0 then Err("IndexError")
    else
      var depth := Resize(st.depth, level + 1, kind);
      var counters := Resize(st.counters, level + 1, 1);
      match kind
      case Ordered => Ok((ListState(depth, counters[level := counters[level] + 1]), counters[level]))
      case Unordered => Ok((ListState(depth, counters[level := 1]), 1))
  }

  /** An ordered item is numbered with the counter it finds, which goes up by one; shallower entries stay. */
  lemma OrderedStepCounts(st: ListState, level: nat)
    requires Balanced(st)
    ensures var r := ListStep(st, Ordered, level);
      var c := if level < |st.counters| then st.counters[level] else 1;
      r.Ok? && r.value.1 == c && r.value.0.counters[level] == c + 1
      && r.value.0.depth[..Min(level, |st.depth|)] == st.depth[..Min(level, |st.depth|)]
      && r.value.0.counters[..Min(level, |st.counters|)] == st.counters[..Min(level, |st.counters|)]
  {
  }

  function Min(a: int, b: int): int { if a < b then a else b }

  /**
   * Going deeper and coming back continues the numbering: an ordered item at `level`, any
   * item deeper down, and the next ordered item at `level` is numbered one more.
   */
  lemma ReturnContinuesNumbering(st: ListState, level: nat, deeper: int, k: ListKind)
    requires Balanced(st) && deeper > level
    ensures var r1 := ListStep(st, Ordered, level);
      var r2 := ListStep(r1.value.0, k, deeper);
      var r3 := ListStep(r2.value.0, Ordered, level);
      r3.Ok? && r3.value.1 == r1.value.1 + 1
  {
    var r1 := ListStep(st, Ordered, level);
    var r2 := ListStep(r1.value.0, k, deeper);
    assert r2.value.0.counters[level] == r1.value.0.counters[level];
  }

  /** An unordered item sets its level back, so an ordered item right after it at that level is numbered 1. */
  lemma UnorderedResetsNumbering(st: ListState, level: nat)
    requires Balanced(st)
    ensures var r1 := ListStep(st, Unordered, level);
      var r2 := ListStep(r1.value.0, Ordered, level);
      r2.Ok? && r2.value.1 == 1
  {
  }

  /** A first item at a new depth is numbered 1. */
  lemma NewDepthStartsAtOne(st: ListState, level: nat)
    requires Balanced(st) && level >= |st.counters|
    ensures ListStep(st, Ordered, level).value.1 == 1
  {
  }

  /** Items at the same level count 1, 2, 3, ... from a fresh state. */
  lemma CountsFromOne()
    ensures var r1 := ListStep(ListState([], []), Ordered, 0);
      var r2 := ListStep(r1.value.0, Ordered, 0);
      var r3 := ListStep(r2.value.0, Ordered, 0);
      r1.value.1 == 1 && r2.value.1 == 2 && r3.value.1 == 3
  {
  }
}
