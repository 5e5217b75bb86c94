/**
  The program's functions as the plugin sees them: `getSortedFunctions` walks
  the listing and sorts the (name, address) pairs by name, and the selection
  dialog offers each pair as the text `"name @ address"`, which the pipeline
  splits at `" @ "` to get the pair back.
*/
module Functions {
  import opened Wrappers
  import opened Text

  /** What the decompiler reports for a function: finished with its C text, or not finished. */
  datatype DecompileResult = Decompiled(c: string) | Incomplete

  /**
    A function of the loaded program as the host hands it out: its name, the
    text of its entry address, and what decompiling it gives.
  */
  datatype ProgramFunction = ProgramFunction(name: string, entry: string, decompilation: DecompileResult)

  /** The (name, address) pair the plugin lists. */
  datatype FunctionDescriptor = FunctionDescriptor(name: string, address: string)

  function Descriptor(f: ProgramFunction): FunctionDescriptor {
    FunctionDescriptor(f.name, f.entry)
  }

  /** The pairs in listing order. */
  function Descriptors(program: seq<ProgramFunction>): (ds: seq<FunctionDescriptor>)
    ensures |ds| == |program|
    ensures forall i :: 0 <= i < |program| ==> ds[i] == Descriptor(program[i])
  {
    seq(|program|, i requires 0 <= i < |program| => Descriptor(program[i]))
  }

  // ---------------------------------------------------------------------------
  // Sorting by name
  // ---------------------------------------------------------------------------

  predicate SortedByName(fs: seq<FunctionDescriptor>) {
    forall i, j :: 0 <= i < j < |fs| ==> NameLe(fs[i].name, fs[j].name)
  }

  /** The entries called `name`, in their order. */
  function WithName(fs: seq<FunctionDescriptor>, name: string): seq<FunctionDescriptor>
  {
    if fs == [] then []
    else (if fs[0].name == name then [fs[0]] else []) + WithName(fs[1..], name)
  }

  lemma WithNameCons(f: FunctionDescriptor, fs: seq<FunctionDescriptor>, name: string)
    ensures WithName([f] + fs, name) == (if f.name == name then [f] else []) + WithName(fs, name)
  {
    assert ([f] + fs)[1..] == fs;
  }

  /** Put `x` before the first entry whose name is not smaller than its own. */
  function InsertByName(x: FunctionDescriptor, ys: seq<FunctionDescriptor>): (r: seq<FunctionDescriptor>)
    ensures |r| == |ys| + 1
  {
    if ys == [] then [x]
    else if NameLe(x.name, ys[0].name) then [x] + ys
    else [ys[0]] + InsertByName(x, ys[1..])
  }

  /** Inserting keeps every entry and adds only the inserted one. */
  lemma {:induction false} InsertPermutation(x: FunctionDescriptor, ys: seq<FunctionDescriptor>)
    ensures multiset(InsertByName(x, ys)) == multiset([x] + ys)
  {
    if ys != [] && !NameLe(x.name, ys[0].name) {
      assert ys == [ys[0]] + ys[1..];
      calc {
        multiset(InsertByName(x, ys));
        multiset([ys[0]] + InsertByName(x, ys[1..]));
        multiset([ys[0]]) + multiset(InsertByName(x, ys[1..]));
        { InsertPermutation(x, ys[1..]); }
        multiset([ys[0]]) + multiset([x] + ys[1..]);
        multiset([x] + ([ys[0]] + ys[1..]));
      }
    }
  }

  /**
    `list.sort(key=lambda x: x[0])`: Python's sort is stable, so entries with
    equal names keep their listing order.
  */
  function SortByName(xs: seq<FunctionDescriptor>): (r: seq<FunctionDescriptor>)
    ensures |r| == |xs|
    ensures multiset(r) == multiset(xs)
  {
    if xs == [] then []
    else
      InsertPermutation(xs[0], SortByName(xs[1..]));
      assert xs == [xs[0]] + xs[1..];
      InsertByName(xs[0], SortByName(xs[1..]))
  }

  /** Every entry of an insert is the inserted entry or one of the list's. */
  lemma InsertedFrom(x: FunctionDescriptor, ys: seq<FunctionDescriptor>, k: nat)
    requires k < |ys| + 1
    ensures InsertByName(x, ys)[k] == x || InsertByName(x, ys)[k] in ys
  {
    var r := InsertByName(x, ys);
    InsertPermutation(x, ys);
    assert r[k] in multiset(r);
    assert r[k] in multiset([x] + ys);
  }

  lemma {:induction false} InsertSorted(x: FunctionDescriptor, ys: seq<FunctionDescriptor>)
    requires SortedByName(ys)
    ensures SortedByName(InsertByName(x, ys))
  {
    if ys == [] {
    } else if NameLe(x.name, ys[0].name) {
      var r := [x] + ys;
      forall i, j | 0 <= i < j < |r| ensures NameLe(r[i].name, r[j].name) {
        if i == 0 && j > 1 {
          NameLeTransitive(x.name, ys[0].name, ys[j - 1].name);
        }
      }
    } else {
      NameLeTotal(x.name, ys[0].name);
      var tail := InsertByName(x, ys[1..]);
      InsertSorted(x, ys[1..]);
      var r := [ys[0]] + tail;
      forall i, j | 0 <= i < j < |r| ensures NameLe(r[i].name, r[j].name) {
        if i == 0 {
          InsertedFrom(x, ys[1..], j - 1);
          if tail[j - 1] != x {
            var k :| 0 <= k < |ys[1..]| && ys[1..][k] == tail[j - 1];
            assert ys[k + 1] == tail[j - 1];
          }
        } else {
          assert r[i] == tail[i - 1] && r[j] == tail[j - 1];
        }
      }
    }
  }

  lemma {:induction false} InsertStable(x: FunctionDescriptor, ys: seq<FunctionDescriptor>, name: string)
    ensures WithName(InsertByName(x, ys), name) == WithName([x] + ys, name)
  {
    if ys != [] && !NameLe(x.name, ys[0].name) {
      var tail := ys[1..];
      var a := if ys[0].name == name then [ys[0]] else [];
      var b := if x.name == name then [x] else [];
      assert a == [] || b == [] by {
        NameLeReflexive(x.name);
      }
      InsertStable(x, tail, name);
      calc {
        WithName(InsertByName(x, ys), name);
        WithName([ys[0]] + InsertByName(x, tail), name);
        { WithNameCons(ys[0], InsertByName(x, tail), name); }
        a + WithName(InsertByName(x, tail), name);
        a + WithName([x] + tail, name);
        { WithNameCons(x, tail, name); }
        a + (b + WithName(tail, name));
        b + (a + WithName(tail, name));
        { WithNameCons(ys[0], tail, name); assert ys == [ys[0]] + tail; }
        b + WithName(ys, name);
        { WithNameCons(x, ys, name); }
        WithName([x] + ys, name);
      }
    }
  }

  /**
    The stable sort by name: the result is ordered by name, and the entries
    sharing a name are in their original order.
  */
  lemma {:induction false} SortByNameCorrect(xs: seq<FunctionDescriptor>)
    ensures SortedByName(SortByName(xs))
    ensures forall name :: WithName(SortByName(xs), name) == WithName(xs, name)
  {
    if xs != [] {
      var rest := SortByName(xs[1..]);
      SortByNameCorrect(xs[1..]);
      InsertSorted(xs[0], rest);
      assert xs == [xs[0]] + xs[1..];
      forall name ensures WithName(SortByName(xs), name) == WithName(xs, name) {
        InsertStable(xs[0], rest, name);
        WithNameCons(xs[0], rest, name);
        WithNameCons(xs[0], xs[1..], name);
      }
    }
  }

  /**
    `getSortedFunctions()`: walk the listing from its first function, collect
    each (name, entry address) pair, then sort the pairs by name.
  */
  method GetSortedFunctions(program: seq<ProgramFunction>) returns (functionList: seq<FunctionDescriptor>)
    ensures functionList == SortByName(Descriptors(program))
    ensures |functionList| == |program|
    ensures SortedByName(functionList)
    ensures multiset(functionList) == multiset(Descriptors(program))
    ensures forall name :: WithName(functionList, name) == WithName(Descriptors(program), name)
  {
    functionList := [];
    var i := 0;
    while i < |program|
      invariant 0 <= i <= |program|
      invariant functionList == Descriptors(program[..i])
    {
      assert Descriptors(program[..i + 1]) == Descriptors(program[..i]) + [Descriptor(program[i])];
      functionList := functionList + [Descriptor(program[i])];
      i := i + 1;
    }
    assert program[..i] == program;
    SortByNameCorrect(functionList);
    functionList := SortByName(functionList);
  }

  // ---------------------------------------------------------------------------
  // The choice strings
  // ---------------------------------------------------------------------------

  const ChoiceSeparator := " @ "

  /** `functionName + " @ " + functionAddress`. */
  function FormatChoice(f: FunctionDescriptor): (r: string)
    ensures |r| == |f.name| + |ChoiceSeparator| + |f.address|
    ensures r[..|f.name|] == f.name
    ensures OccursAt(r, ChoiceSeparator, |f.name|)
    ensures r[|f.name| + |ChoiceSeparator|..] == f.address
  {
    f.name + ChoiceSeparator + f.address
  }

  /** The choices offered for selection: one per listed pair, in the same order. */
  method BuildChoices(functionList: seq<FunctionDescriptor>) returns (choices: seq<string>)
    ensures |choices| == |functionList|
    ensures forall i :: 0 <= i < |functionList| ==> choices[i] == FormatChoice(functionList[i])
  {
    choices := [];
    for i := 0 to |functionList|
      invariant |choices| == i
      invariant forall k :: 0 <= k < i ==> choices[k] == FormatChoice(functionList[k])
    {
      choices := choices + [FormatChoice(functionList[i])];
    }
  }

  /**
    `functionName, functionAddress = selectedChoice.split(" @ ")`: `None` where
    the unpacking raises, that is unless the split gives exactly two pieces.
    Whatever it yields formats back to the same choice.
  */
  function ParseChoice(choice: string): (r: Option<FunctionDescriptor>)
    ensures r.Some? ==> FormatChoice(r.value) == choice
    ensures r.Some? ==> !Contains(r.value.address, ChoiceSeparator)
  {
    var parts := SplitOn(choice, ChoiceSeparator);
    if |parts| == 2 then
      assert parts == [parts[0]] + [parts[1]];
      JoinCons(parts[0], [parts[1]], ChoiceSeparator);
      SplitOnFirst(choice, ChoiceSeparator);
      assert Find(choice, ChoiceSeparator).Some?;
      var i := Find(choice, ChoiceSeparator).value;
      SplitOnFirst(choice[i + |ChoiceSeparator|..], ChoiceSeparator);
      Some(FunctionDescriptor(parts[0], parts[1]))
    else
      None
  }

  /** The pair can be told apart from its separator: neither part holds `" @ "` and the name does not end in `" @"`. */
  predicate Unambiguous(f: FunctionDescriptor) {
    && !Contains(f.name, ChoiceSeparator)
    && !(|f.name| >= 2 && f.name[|f.name| - 2..] == " @")
    && !Contains(f.address, ChoiceSeparator)
  }

  /** In `FormatChoice(f)`, the first `" @ "` is the one put there, when `f` is unambiguous. */
  lemma FirstSeparatorOfUnambiguous(f: FunctionDescriptor)
    requires Unambiguous(f)
    ensures Find(FormatChoice(f), ChoiceSeparator) == Some(|f.name|)
  {
    var s := FormatChoice(f);
    var n := |f.name|;
    assert forall k :: 0 <= k < n ==> s[k] == f.name[k];
    assert s[n] == ' ' && s[n + 1] == '@' && s[n + 2] == ' ';
    assert OccursAt(s, ChoiceSeparator, n) by {
      assert s[n..n + 3] == ChoiceSeparator;
    }
    forall j: nat | j < n ensures !OccursAt(s, ChoiceSeparator, j) {
      if j + 3 <= n {
        assert s[j..j + 3] == f.name[j..j + 3];
        assert !OccursAt(f.name, ChoiceSeparator, j);
      } else if j + 2 == n {
        assert s[j] == f.name[n - 2] && s[j + 1] == f.name[n - 1];
      } else {
        assert s[j + 2] == '@';
      }
    }
    var r := Find(s, ChoiceSeparator);
    assert r.Some? by {
      assert n <= |s|;
    }
  }

  /** Splitting the choice of an unambiguous pair gives the pair back. */
  lemma ChoiceRoundTrip(f: FunctionDescriptor)
    requires Unambiguous(f)
    ensures ParseChoice(FormatChoice(f)) == Some(f)
  {
    var s := FormatChoice(f);
    var n := |f.name|;
    assert s[n + 3..] == f.address;
    assert s[..n] == f.name;
    FirstSeparatorOfUnambiguous(f);
    SplitOnFirst(s, ChoiceSeparator);
    SplitOnFirst(f.address, ChoiceSeparator);
    assert SplitOn(s, ChoiceSeparator) == [f.name, f.address];
  }

  /** Only an unambiguous pair comes back whole from its choice. */
  lemma ChoiceRoundTripOnlyIfUnambiguous(f: FunctionDescriptor)
    requires ParseChoice(FormatChoice(f)) == Some(f)
    ensures Unambiguous(f)
  {
    var s := FormatChoice(f);
    var n := |f.name|;
    var parts := SplitOn(s, ChoiceSeparator);
    SplitOnFirst(s, ChoiceSeparator);
    var i := Find(s, ChoiceSeparator).value;
    assert parts[0] == s[..i] == f.name;
    assert i == n;
    NameSeparatorsInChoice(f);
  }

  /**
    A `" @ "` inside the name, or one made of a trailing `" @"` and the
    separator's last space, occurs in the choice before the separator itself.
  */
  lemma NameSeparatorsInChoice(f: FunctionDescriptor)
    ensures forall j: nat :: OccursAt(f.name, ChoiceSeparator, j) ==> OccursAt(FormatChoice(f), ChoiceSeparator, j) && j < |f.name|
    ensures |f.name| >= 2 && f.name[|f.name| - 2..] == " @" ==> OccursAt(FormatChoice(f), ChoiceSeparator, |f.name| - 2)
  {
    var s := FormatChoice(f);
    var n := |f.name|;
    forall j: nat | OccursAt(f.name, ChoiceSeparator, j)
      ensures OccursAt(s, ChoiceSeparator, j) && j < n
    {
      assert s[j..j + 3] == f.name[j..j + 3];
    }
    if |f.name| >= 2 && f.name[n - 2..] == " @" {
      assert s[n - 2..n + 1] == " @ ";
    }
  }

  /** A text in which no `'@'` stands between its first and last character holds no `" @ "`. */
  lemma NoInnerAtNoSeparator(t: string)
    requires forall k :: 1 <= k < |t| - 1 ==> t[k] != '@'
    ensures !Contains(t, ChoiceSeparator)
  {
    forall j: nat | j <= |t| ensures !OccursAt(t, ChoiceSeparator, j) {
      if j + 3 <= |t| {
        assert t[j..j + 3][1] == t[j + 1];
      }
    }
  }

  /** A choice whose first `" @ "` is also its last parses into the text around it. */
  lemma ParseAtOnlySeparator(s: string, i: nat)
    requires Find(s, ChoiceSeparator) == Some(i)
    requires !Contains(s[i + 3..], ChoiceSeparator)
    ensures ParseChoice(s) == Some(FunctionDescriptor(s[..i], s[i + 3..]))
  {
    SplitOnFirst(s, ChoiceSeparator);
    SplitOnFirst(s[i + 3..], ChoiceSeparator);
  }

  /**
    A name ending in `" @"` is cut short although neither part holds `" @ "`:
    the choice `"f @ @ 1000"` splits after `"f"`.
  */
  lemma ChoiceBoundaryOverlap(name: string, address: string)
    requires name == "f @" && address == "1000"
    ensures !Contains(name, ChoiceSeparator) && !Contains(address, ChoiceSeparator)
    ensures ParseChoice(FormatChoice(FunctionDescriptor(name, address))) == Some(FunctionDescriptor("f", "@ 1000"))
  {
    NoInnerAtNoSeparator(name);
    NoInnerAtNoSeparator(address);
    var s := FormatChoice(FunctionDescriptor(name, address));
    assert s == "f @ @ 1000";
    assert s[1..][..3] == ChoiceSeparator;
    assert s[..3] != ChoiceSeparator by {
      assert s[0] == 'f';
    }
    assert Find(s, ChoiceSeparator) == Some(1);
    var rest := s[4..];
    assert rest == "@ 1000";
    NoInnerAtNoSeparator(rest);
    ParseAtOnlySeparator(s, 1);
    assert s[..1] == "f";
  }
}
