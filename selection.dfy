/**
 * The finder scripts' number prompts, one reply at a time: `select_files` of the first two
 * scripts rejects a reply holding any bad number, `select_paths` of the third skips bad
 * numbers, and the third script's directory prompt takes the first entry picked.
 */
module Selection {
  import opened Wrappers
  import opened OrgStrings

  /** What one reply leads to: the prompt is asked again, or the function returns (`None` for `back`). */
  datatype Reply = AskAgain | Return(picked: Option<seq<string>>)

  /** `[num.strip() for num in selection.split(',')]`: never empty, since a split has at least one piece. */
  function Tokens(selection: string): (r: seq<string>)
    ensures |r| >= 1
  {
    var parts := Split(selection, ',');
    seq(|parts|, k requires 0 <= k < |parts| => Strip(parts[k]))
  }

  /** `num_str.isdigit()` and `1 <= int(num_str) <= n`: the token names one of `n` numbered entries. */
  predicate Names(token: string, n: int) {
    IsDigits(token) && 1 <= DigitsValue(token) <= n
  }

  /** `entries[num - 1]`, the entry a token names. */
  function Entry(entries: seq<string>, token: string): string
    requires Names(token, |entries|)
  {
    entries[DigitsValue(token) - 1]
  }

  // ---------------------------------------------------------------- select_files: all or nothing

  /** The entries named, one per token in the order typed, or `None` as soon as a token names nothing. */
  function AllPicked(entries: seq<string>, tokens: seq<string>): Option<seq<string>>
    decreases |tokens|
  {
    if tokens == [] then Some([])
    else
      match AllPicked(entries, tokens[..|tokens| - 1])
      case None => None
      case Some(ps) =>
        var t := tokens[|tokens| - 1];
        if Names(t, |entries|) then Some(ps + [Entry(entries, t)]) else None
  }

  /**
   * A reply is accepted exactly when every token names an entry; the entries then come in
   * the order typed, one per token, so a number typed twice picks its entry twice.
   */
  lemma {:induction false} AllPickedExact(entries: seq<string>, tokens: seq<string>)
    ensures AllPicked(entries, tokens).Some? <==> forall k :: 0 <= k < |tokens| ==> Names(tokens[k], |entries|)
    ensures AllPicked(entries, tokens).Some? ==>
      var r := AllPicked(entries, tokens).value;
      |r| == |tokens| && forall k :: 0 <= k < |tokens| ==> Names(tokens[k], |entries|) && r[k] == Entry(entries, tokens[k])
    decreases |tokens|
  {
    if tokens != [] {
      var init := tokens[..|tokens| - 1];
      AllPickedExact(entries, init);
      assert forall k :: 0 <= k < |init| ==> init[k] == tokens[k];
    }
  }

  /** Once a prefix of the tokens is rejected, the whole reply is. */
  lemma {:induction false} RejectionPersists(entries: seq<string>, tokens: seq<string>, i: nat)
    requires i <= |tokens| && AllPicked(entries, tokens[..i]) == None
    ensures AllPicked(entries, tokens) == None
    decreases |tokens| - i
  {
    if i < |tokens| {
      assert tokens[..i + 1][..i] == tokens[..i];
      RejectionPersists(entries, tokens, i + 1);
    } else {
      assert tokens[..i] == tokens;
    }
  }

  /** `select_files` on one reply: `back` in any letter case, a blank reply, then the numbers. */
  function SelectFilesReply(files: seq<string>, input: string): Reply {
    var s := Strip(input);
    if Lower(s) == "back" then Return(None)
    else if s == [] then AskAgain
    else
      match AllPicked(files, Tokens(s))
      case Some(ps) => if ps != [] then Return(Some(ps)) else AskAgain
      case None => AskAgain
  }

  /**
   * `select_files` returns a list exactly when the reply is not `back` and every number in it
   * is in range; the `No valid files selected` branch is never taken, because a valid reply
   * always picks something.
   */
  lemma SelectFilesReturns(files: seq<string>, input: string)
    ensures var s := Strip(input);
      (SelectFilesReply(files, input).Return? && SelectFilesReply(files, input).picked.Some?) <==>
      (Lower(s) != "back" && s != [] && forall k :: 0 <= k < |Tokens(s)| ==> Names(Tokens(s)[k], |files|))
    ensures Lower(Strip(input)) == "back" ==> SelectFilesReply(files, input) == Return(None)
  {
    var s := Strip(input);
    AllPickedExact(files, Tokens(s));
  }

  /** `select_files` on one reply; the numbers go through `ParseAll`. */
  method SelectFiles(files: seq<string>, input: string) returns (reply: Reply)
    ensures reply == SelectFilesReply(files, input)
  {
    var selection := Strip(input);
    if Lower(selection) == "back" {
      return Return(None);
    }
    if selection == [] {
      return AskAgain;
    }
    var picked := ParseAll(files, Tokens(selection));
    if picked.Some? && picked.value != [] {
      return Return(picked);
    }
    return AskAgain;
  }

  /** The `for num_str in nums` loop of `select_files`, with its `valid` flag: it stops at the first bad token. */
  method ParseAll(files: seq<string>, nums: seq<string>) returns (picked: Option<seq<string>>)
    ensures picked == AllPicked(files, nums)
  {
    var selectedFiles: seq<string> := [];
    var valid := true;
    var k := 0;
    while k < |nums|
      invariant 0 <= k <= |nums|
      invariant valid ==> AllPicked(files, nums[..k]) == Some(selectedFiles)
      invariant !valid ==> AllPicked(files, nums) == None
    {
      assert nums[..k + 1][..k] == nums[..k];
      var numStr := nums[k];
      if IsDigits(numStr) {
        var num := DigitsValue(numStr);
        if 1 <= num <= |files| {
          selectedFiles := selectedFiles + [files[num - 1]];
        } else {
          valid := false;
          RejectionPersists(files, nums, k + 1);
          break;
        }
      } else {
        valid := false;
        RejectionPersists(files, nums, k + 1);
        break;
      }
      k := k + 1;
    }
    if valid {
      assert nums[..k] == nums;
      return Some(selectedFiles);
    }
    return None;
  }

  // ---------------------------------------------------------------- select_paths: skip what names nothing

  /** The entries named by the tokens that name one, in the order typed; the other tokens are skipped. */
  function SomePicked(entries: seq<string>, tokens: seq<string>): seq<string>
    decreases |tokens|
  {
    if tokens == [] then []
    else
      var t := tokens[|tokens| - 1];
      SomePicked(entries, tokens[..|tokens| - 1]) + (if Names(t, |entries|) then [Entry(entries, t)] else [])
  }

  /** Nothing is picked exactly when no token names an entry. */
  lemma {:induction false} SomePickedEmpty(entries: seq<string>, tokens: seq<string>)
    ensures SomePicked(entries, tokens) == [] <==> forall k :: 0 <= k < |tokens| ==> !Names(tokens[k], |entries|)
    decreases |tokens|
  {
    if tokens != [] {
      var init := tokens[..|tokens| - 1];
      SomePickedEmpty(entries, init);
      assert forall k :: 0 <= k < |init| ==> init[k] == tokens[k];
    }
  }

  /** The first entry picked is the one named by the first token that names an entry. */
  lemma {:induction false} SomePickedFirst(entries: seq<string>, tokens: seq<string>)
    requires SomePicked(entries, tokens) != []
    ensures exists k :: (0 <= k < |tokens| && Names(tokens[k], |entries|)
      && (forall j :: 0 <= j < k ==> !Names(tokens[j], |entries|))
      && SomePicked(entries, tokens)[0] == Entry(entries, tokens[k]))
    decreases |tokens|
  {
    var init := tokens[..|tokens| - 1];
    assert forall k :: 0 <= k < |init| ==> init[k] == tokens[k];
    if SomePicked(entries, init) != [] {
      SomePickedFirst(entries, init);
      var k :| 0 <= k < |init| && Names(init[k], |entries|)
        && (forall j :: 0 <= j < k ==> !Names(init[j], |entries|))
        && SomePicked(entries, init)[0] == Entry(entries, init[k]);
      assert tokens[k] == init[k];
    } else {
      SomePickedEmpty(entries, init);
      assert Names(tokens[|tokens| - 1], |entries|);
    }
  }

  /** Where the strict prompt accepts a reply, the lenient one picks the same entries. */
  lemma {:induction false} LenientAgreesWithStrict(entries: seq<string>, tokens: seq<string>)
    requires AllPicked(entries, tokens).Some?
    ensures SomePicked(entries, tokens) == AllPicked(entries, tokens).value
    decreases |tokens|
  {
    if tokens != [] {
      LenientAgreesWithStrict(entries, tokens[..|tokens| - 1]);
    }
  }

  /** `select_paths` on one reply: `None` for `back` and for a reply that names nothing; only a blank reply asks again. */
  function SelectPathsReply(paths: seq<string>, input: string): Reply {
    var s := Strip(input);
    if Lower(s) == "back" then Return(None)
    else if s == [] then AskAgain
    else
      var ps := SomePicked(paths, Tokens(s));
      Return(if ps != [] then Some(ps) else None)
  }

  /** `select_paths` returns `None` exactly for `back` and for replies in which no number is in range. */
  lemma SelectPathsNone(paths: seq<string>, input: string)
    requires Strip(input) != []
    ensures var s := Strip(input);
      SelectPathsReply(paths, input) == Return(None) <==>
      (Lower(s) == "back" || forall k :: 0 <= k < |Tokens(s)| ==> !Names(Tokens(s)[k], |paths|))
  {
    SomePickedEmpty(paths, Tokens(Strip(input)));
  }

  /** `select_paths` on one reply; the numbers go through `ParseSome`. */
  method SelectPaths(paths: seq<string>, input: string) returns (reply: Reply)
    ensures reply == SelectPathsReply(paths, input)
  {
    var selection := Strip(input);
    if Lower(selection) == "back" {
      return Return(None);
    }
    if selection == [] {
      return AskAgain;
    }
    var selectedPaths := ParseSome(paths, Tokens(selection));
    return Return(if selectedPaths != [] then Some(selectedPaths) else None);
  }

  /** The loop of `select_paths`: it appends what a token names and skips the rest. */
  method ParseSome(paths: seq<string>, nums: seq<string>) returns (selectedPaths: seq<string>)
    ensures selectedPaths == SomePicked(paths, nums)
  {
    selectedPaths := [];
    var k := 0;
    while k < |nums|
      invariant 0 <= k <= |nums|
      invariant selectedPaths == SomePicked(paths, nums[..k])
    {
      assert nums[..k + 1][..k] == nums[..k];
      var numStr := nums[k];
      if IsDigits(numStr) {
        var num := DigitsValue(numStr);
        if 1 <= num <= |paths| {
          selectedPaths := selectedPaths + [paths[num - 1]];
        }
      }
      k := k + 1;
    }
    assert nums[..k] == nums;
  }

  /** The third script's directory prompt: `if not selection: continue`, else the first entry picked. */
  function ChosenDirectory(r: Reply): Option<string> {
    if r.Return? && r.picked.Some? && r.picked.value != [] then Some(r.picked.value[0]) else None
  }

  /** The directory searched is the one named by the first number in range, however many were typed. */
  lemma FirstDirectoryChosen(dirs: seq<string>, input: string, d: string)
    requires ChosenDirectory(SelectPathsReply(dirs, input)) == Some(d)
    ensures var t := Tokens(Strip(input));
      exists k :: (0 <= k < |t| && Names(t[k], |dirs|) && (forall j :: 0 <= j < k ==> !Names(t[j], |dirs|))
        && d == Entry(dirs, t[k]))
  {
    var s := Strip(input);
    SomePickedFirst(dirs, Tokens(s));
  }
}
