/**
  Merging a caller's argument specifications with the default DALI options, as
  `add_dali_pipeline_args` does before it registers them with an argument group.

  An argument specification is a tuple `(name, f1, f2, ...)`. A caller's
  specification removes at most one default: the first default, in the current
  order of the default list, whose name is a synonym of the caller's name.
 */
module ArgMerge {
  import opened Results
  import opened Text

  /** A value after the option name in an argument tuple: a string, an integer or a type such as `int`. */
  datatype Field = Str(s: string) | Int(i: int) | TypeRef(typeName: string)

  /** An argument tuple `(name, f1, f2, ...)`; the tuple's length is `1 + |fields|`. */
  datatype ArgSpec = ArgSpec(name: string, fields: seq<Field>)

  /** What one argument tuple registers with the argument group. */
  datatype Registration =
    | ActionFlag(name: string, action: Field, help: Field)
    | TypedOption(name: string, kind: Field, default: Field, help: Field)

  /** Synonym table entries `(key, text)`. The text is a plain string, so membership in it is a substring test. */
  type SynonymTable = seq<(string, string)>

  /** The module-level synonym table: `('--dali-separ-val')` is a parenthesised string, not a tuple. */
  const SynonymsList: SynonymTable := [("--separ-val", "--dali-separ-val")]

  /** The help texts of the default DALI options. */
  const SeparValHelp: string := "each process will perform independent validation on whole val-set"
  const ThreadsHelp: string := "number of threads per GPU for DALI"
  const PrefetchHelp: string := "DALI prefetch queue depth"
  const PaddingHelp: string := "Memory padding value for nvJPEG (in MB)"
  const NumExamplesHelp: string := "Number of training examples to be used, \"-1\" - the full training set"
  const ReaderNameHelp: string := "Reader name"

  /** The default DALI options, in the order they are declared. */
  const DefaultArgs: seq<ArgSpec> := [
    ArgSpec("--separ-val", [Str("store_true"), Str(SeparValHelp)]),
    ArgSpec("--dali-threads", [TypeRef("int"), Int(3), Str(ThreadsHelp)]),
    ArgSpec("--dali-prefetch-queue", [TypeRef("int"), Int(3), Str(PrefetchHelp)]),
    ArgSpec("--dali-nvjpeg-memory-padding", [TypeRef("int"), Int(16), Str(PaddingHelp)]),
    ArgSpec("--num_examples", [TypeRef("int"), Int(-1), Str(NumExamplesHelp)]),
    ArgSpec("--reader_name", [TypeRef("str"), Str(""), Str(ReaderNameHelp)])
  ]

  /* ------------------------------------------------------------- synonyms */

  /** The loop over the table: the first entry keyed by `nameA` decides, by a substring test on its text. */
  function LookupSynonym(table: SynonymTable, nameA: string, nameB: string): (r: bool)
    ensures r ==> exists i :: 0 <= i < |table| && table[i].0 == nameA
    decreases |table|
  {
    if |table| == 0 then false
    else if table[0].0 == nameA then IsSubstring(nameB, table[0].1)
    else
      var r := LookupSynonym(table[1..], nameA, nameB);
      assert forall i :: 0 <= i < |table[1..]| ==> table[1..][i] == table[i + 1];
      r
  }

  /** `are_synonyms(nameA, nameB)`. */
  function AreSynonyms(table: SynonymTable, nameA: string, nameB: string): (r: bool)
    ensures nameA == nameB ==> r
    ensures r && nameA != nameB ==> exists i :: 0 <= i < |table| && table[i].0 == nameA
  {
    nameA == nameB || LookupSynonym(table, nameA, nameB)
  }

  /** `i` is the first entry of `table` keyed by `name`. */
  ghost predicate FirstKeyAt(table: SynonymTable, name: string, i: int) {
    0 <= i < |table| && table[i].0 == name && forall j :: 0 <= j < i ==> table[j].0 != name
  }

  lemma {:induction false} LookupFirstKey(table: SynonymTable, nameA: string, nameB: string)
    ensures LookupSynonym(table, nameA, nameB) <==>
            exists i :: FirstKeyAt(table, nameA, i) && IsSubstring(nameB, table[i].1)
    decreases |table|
  {
    if |table| == 0 {
    } else if table[0].0 == nameA {
      assert FirstKeyAt(table, nameA, 0);
    } else {
      LookupFirstKey(table[1..], nameA, nameB);
      forall i | FirstKeyAt(table[1..], nameA, i)
        ensures FirstKeyAt(table, nameA, i + 1)
      {
        assert forall j :: 1 <= j < i + 1 ==> table[j] == table[1..][j - 1];
      }
      forall i | FirstKeyAt(table, nameA, i)
        ensures i > 0 && FirstKeyAt(table[1..], nameA, i - 1)
      {
        assert forall j :: 0 <= j < i - 1 ==> table[1..][j] == table[j + 1];
      }
    }
  }

  /**
    Reference meaning of `are_synonyms`: equal names, or `nameB` occurs in the text of the
    first table entry keyed by `nameA`. No other entry is consulted.
   */
  lemma AreSynonymsMeaning(table: SynonymTable, nameA: string, nameB: string)
    ensures AreSynonyms(table, nameA, nameB) <==>
            nameA == nameB || exists i :: FirstKeyAt(table, nameA, i) && IsSubstring(nameB, table[i].1)
  {
    LookupFirstKey(table, nameA, nameB);
  }

  /** A name that keys no entry is a synonym of itself only. */
  lemma {:induction false} UnkeyedHasNoSynonyms(table: SynonymTable, nameA: string, nameB: string)
    requires forall i :: 0 <= i < |table| ==> table[i].0 != nameA
    ensures AreSynonyms(table, nameA, nameB) <==> nameA == nameB
    decreases |table|
  {
    if |table| > 0 {
      UnkeyedHasNoSynonyms(table[1..], nameA, nameB);
    }
  }

  /** A string is not a substring of a text missing one of its characters. */
  lemma NotSubstringByChar(sub: string, s: string, c: char)
    requires c in sub && c !in s
    ensures !IsSubstring(sub, s)
  {
    if IsSubstring(sub, s) {
      SubstringChars(sub, s, c);
    }
  }

  /** With the real table the relation is not symmetric. */
  lemma SynonymsNotSymmetric()
    ensures AreSynonyms(SynonymsList, "--separ-val", "--dali-separ-val")
    ensures !AreSynonyms(SynonymsList, "--dali-separ-val", "--separ-val")
  {
    var s := "--dali-separ-val";
    assert OccursAt(s, s, 0);
    UnkeyedHasNoSynonyms(SynonymsList, s, "--separ-val");
  }

  /** With the real table the text is searched, not compared: any piece of it, even the empty name, matches. */
  lemma SynonymTextIsSearched()
    ensures AreSynonyms(SynonymsList, "--separ-val", "--dali")
    ensures AreSynonyms(SynonymsList, "--separ-val", "separ-val")
    ensures AreSynonyms(SynonymsList, "--separ-val", "")
  {
    var s := "--dali-separ-val";
    assert OccursAt("--dali", s, 0);
    assert OccursAt("separ-val", s, 7);
    assert OccursAt("", s, 0);
  }

  lemma NotContained(sub: string, s: string)
    requires sub == "--separ" && s == "--dali-separ-val"
    ensures !IsSubstring(sub, s)
  {
    forall i | 0 <= i <= |s|
      ensures !OccursAt(sub, s, i)
    {
      if i + |sub| <= |s| {
        var w := s[i..i + |sub|];
        assert w[0] == s[i] && w[1] == s[i + 1] && w[2] == s[i + 2];
        if s[i] == '-' && s[i + 1] == '-' {
          assert i == 0;
          assert w[2] != sub[2];
        } else {
          assert w[0] != sub[0] || w[1] != sub[1];
        }
      }
    }
  }

  /** A piece must occur contiguously: `--separ` is not in the text `--dali-separ-val`. */
  lemma SynonymNeedsContiguousText()
    ensures !AreSynonyms(SynonymsList, "--separ-val", "--separ")
  {
    NotContained("--separ", "--dali-separ-val");
  }

  /* ------------------------------------------------------ duplicate removal */

  /** `i` is the first default, in the current order, that is a synonym of the caller's argument `t`. */
  ghost predicate IsFirstSynonym(table: SynonymTable, ds: seq<ArgSpec>, t: ArgSpec, i: int) {
    0 <= i < |ds| && AreSynonyms(table, ds[i].name, t.name) &&
    forall j :: 0 <= j < i ==> !AreSynonyms(table, ds[j].name, t.name)
  }

  /** One pass of the inner loop: drop the first default that `t` makes redundant, if any. */
  function RemoveFirstSynonym(table: SynonymTable, ds: seq<ArgSpec>, t: ArgSpec): (r: seq<ArgSpec>)
    ensures (forall i :: 0 <= i < |ds| ==> !AreSynonyms(table, ds[i].name, t.name)) ==> r == ds
    ensures |r| == |ds| || |r| == |ds| - 1
    ensures forall e :: e in r ==> e in ds
    decreases |ds|
  {
    if |ds| == 0 then []
    else if AreSynonyms(table, ds[0].name, t.name) then ds[1..]
    else
      var rest := RemoveFirstSynonym(table, ds[1..], t);
      assert forall i :: 0 <= i < |ds[1..]| ==> ds[1..][i] == ds[i + 1];
      [ds[0]] + rest
  }

  /** Exactly the first synonymous default is removed, and nothing else moves. */
  lemma {:induction false} RemoveFirstSynonymRemovesFirst(table: SynonymTable, ds: seq<ArgSpec>, t: ArgSpec, i: int)
    requires IsFirstSynonym(table, ds, t, i)
    ensures RemoveFirstSynonym(table, ds, t) == ds[..i] + ds[i + 1..]
    decreases |ds|
  {
    if i == 0 {
      assert ds[..0] + ds[1..] == ds[1..];
    } else {
      assert !AreSynonyms(table, ds[0].name, t.name);
      assert IsFirstSynonym(table, ds[1..], t, i - 1) by {
        forall j | 0 <= j < i - 1
          ensures !AreSynonyms(table, ds[1..][j].name, t.name)
        {
          assert ds[1..][j] == ds[j + 1];
        }
      }
      RemoveFirstSynonymRemovesFirst(table, ds[1..], t, i - 1);
      assert ds[1..][..i - 1] == ds[1..i];
      assert ds[1..][i..] == ds[i + 1..];
      assert [ds[0]] + ds[1..i] == ds[..i];
    }
  }

  /** The whole loop over the caller's arguments, in order. */
  function RemoveDuplicates(table: SynonymTable, task: seq<ArgSpec>, ds: seq<ArgSpec>): (r: seq<ArgSpec>)
    ensures |ds| - |task| <= |r| <= |ds|
    ensures forall e :: e in r ==> e in ds
    decreases |task|
  {
    if |task| == 0 then ds
    else RemoveDuplicates(table, task[1..], RemoveFirstSynonym(table, ds, task[0]))
  }

  /** `a` is `b` with some elements left out, the rest in their original order. */
  ghost predicate IsSubsequence<T>(a: seq<T>, b: seq<T>)
    decreases |b|
  {
    |a| == 0 || (|b| > 0 && ((a[0] == b[0] && IsSubsequence(a[1..], b[1..])) || IsSubsequence(a, b[1..])))
  }

  lemma {:induction false} SubsequenceReflexive<T>(a: seq<T>)
    ensures IsSubsequence(a, a)
    decreases |a|
  {
    if |a| > 0 {
      SubsequenceReflexive(a[1..]);
    }
  }

  lemma {:induction false} SubsequenceTransitive<T>(a: seq<T>, b: seq<T>, c: seq<T>)
    requires IsSubsequence(a, b) && IsSubsequence(b, c)
    ensures IsSubsequence(a, c)
    decreases |c|
  {
    if |a| > 0 {
      if IsSubsequence(b, c[1..]) {
        SubsequenceTransitive(a, b, c[1..]);
      } else if a[0] == b[0] && IsSubsequence(a[1..], b[1..]) {
        SubsequenceTransitive(a[1..], b[1..], c[1..]);
      } else {
        SubsequenceTransitive(a, b[1..], c[1..]);
      }
    }
  }

  lemma {:induction false} RemoveFirstIsSubsequence(table: SynonymTable, ds: seq<ArgSpec>, t: ArgSpec)
    ensures IsSubsequence(RemoveFirstSynonym(table, ds, t), ds)
    decreases |ds|
  {
    if |ds| > 0 {
      if AreSynonyms(table, ds[0].name, t.name) {
        SubsequenceReflexive(ds[1..]);
      } else {
        var rest := RemoveFirstSynonym(table, ds[1..], t);
        RemoveFirstIsSubsequence(table, ds[1..], t);
        assert ([ds[0]] + rest)[1..] == rest;
      }
    }
  }

  /** The surviving defaults keep their original relative order. */
  lemma {:induction false} RemoveDuplicatesIsSubsequence(table: SynonymTable, task: seq<ArgSpec>, ds: seq<ArgSpec>)
    ensures IsSubsequence(RemoveDuplicates(table, task, ds), ds)
    decreases |task|
  {
    if |task| == 0 {
      SubsequenceReflexive(ds);
    } else {
      var x := RemoveFirstSynonym(table, ds, task[0]);
      RemoveFirstIsSubsequence(table, ds, task[0]);
      RemoveDuplicatesIsSubsequence(table, task[1..], x);
      SubsequenceTransitive(RemoveDuplicates(table, task[1..], x), x, ds);
    }
  }

  /** A default none of the caller's arguments is a synonym for. */
  ghost predicate Unmatched(table: SynonymTable, name: string, task: seq<ArgSpec>) {
    forall j :: 0 <= j < |task| ==> !AreSynonyms(table, name, task[j].name)
  }

  /** The defaults no caller argument can remove, in their original order. */
  ghost function Untouched(table: SynonymTable, task: seq<ArgSpec>, ds: seq<ArgSpec>): (r: seq<ArgSpec>)
    ensures forall e :: e in r <==> e in ds && Unmatched(table, e.name, task)
    decreases |ds|
  {
    if |ds| == 0 then []
    else
      var rest := Untouched(table, task, ds[1..]);
      assert ds == [ds[0]] + ds[1..];
      if Unmatched(table, ds[0].name, task) then [ds[0]] + rest else rest
  }

  lemma {:induction false} UntouchedIgnoresRemoval(table: SynonymTable, task: seq<ArgSpec>, ds: seq<ArgSpec>)
    requires |task| > 0
    ensures Untouched(table, task, RemoveFirstSynonym(table, ds, task[0])) == Untouched(table, task, ds)
    decreases |ds|
  {
    if |ds| > 0 && !AreSynonyms(table, ds[0].name, task[0].name) {
      var rest := RemoveFirstSynonym(table, ds[1..], task[0]);
      UntouchedIgnoresRemoval(table, task, ds[1..]);
      assert ([ds[0]] + rest)[1..] == rest;
    }
  }

  lemma {:induction false} UntouchedShrinks(table: SynonymTable, task: seq<ArgSpec>, ds: seq<ArgSpec>)
    requires |task| > 0
    ensures IsSubsequence(Untouched(table, task, ds), Untouched(table, task[1..], ds))
    decreases |ds|
  {
    if |ds| > 0 {
      UntouchedShrinks(table, task, ds[1..]);
      var a := Untouched(table, task, ds[1..]);
      var b := Untouched(table, task[1..], ds[1..]);
      if Unmatched(table, ds[0].name, task) {
        assert Unmatched(table, ds[0].name, task[1..]) by {
          forall j | 0 <= j < |task[1..]|
            ensures !AreSynonyms(table, ds[0].name, task[1..][j].name)
          {
            assert task[1..][j] == task[j + 1];
          }
        }
        assert ([ds[0]] + a)[1..] == a;
        assert ([ds[0]] + b)[1..] == b;
      } else if Unmatched(table, ds[0].name, task[1..]) {
        assert ([ds[0]] + b)[1..] == b;
      }
    }
  }

  /** Defaults that are a synonym of no caller argument all survive, in their original relative order. */
  lemma {:induction false} UnmatchedDefaultsSurvive(table: SynonymTable, task: seq<ArgSpec>, ds: seq<ArgSpec>)
    ensures IsSubsequence(Untouched(table, task, ds), RemoveDuplicates(table, task, ds))
    decreases |task|
  {
    if |task| == 0 {
      var u := Untouched(table, task, ds);
      assert u == ds by {
        UntouchedAll(table, task, ds);
      }
      SubsequenceReflexive(ds);
    } else {
      var x := RemoveFirstSynonym(table, ds, task[0]);
      UntouchedIgnoresRemoval(table, task, ds);
      UntouchedShrinks(table, task, x);
      UnmatchedDefaultsSurvive(table, task[1..], x);
      SubsequenceTransitive(Untouched(table, task, x), Untouched(table, task[1..], x), RemoveDuplicates(table, task[1..], x));
    }
  }

  lemma {:induction false} UntouchedAll(table: SynonymTable, task: seq<ArgSpec>, ds: seq<ArgSpec>)
    requires |task| == 0
    ensures Untouched(table, task, ds) == ds
    decreases |ds|
  {
    if |ds| > 0 {
      UntouchedAll(table, task, ds[1..]);
    }
  }

  /* ------------------------------------------------------------ caller wins */

  /** No default is a synonym of the name of a default after it; in particular all names differ. */
  ghost predicate WellSeparated(table: SynonymTable, ds: seq<ArgSpec>)
    decreases |ds|
  {
    |ds| == 0 ||
    ((forall e :: e in ds[1..] ==> !AreSynonyms(table, ds[0].name, e.name)) && WellSeparated(table, ds[1..]))
  }

  lemma {:induction false} RemoveFirstDropsName(table: SynonymTable, ds: seq<ArgSpec>, t: ArgSpec)
    requires WellSeparated(table, ds)
    ensures forall e :: e in RemoveFirstSynonym(table, ds, t) ==> e.name != t.name
    ensures WellSeparated(table, RemoveFirstSynonym(table, ds, t))
    decreases |ds|
  {
    if |ds| > 0 && !AreSynonyms(table, ds[0].name, t.name) {
      var rest := RemoveFirstSynonym(table, ds[1..], t);
      RemoveFirstDropsName(table, ds[1..], t);
      assert ([ds[0]] + rest)[1..] == rest;
      assert forall e :: e in [ds[0]] + rest ==> e == ds[0] || e in rest;
    }
  }

  lemma {:induction false} RemoveDuplicatesDropsNames(table: SynonymTable, task: seq<ArgSpec>, ds: seq<ArgSpec>)
    requires WellSeparated(table, ds)
    ensures forall k, e :: 0 <= k < |task| && e in RemoveDuplicates(table, task, ds) ==> e.name != task[k].name
    decreases |task|
  {
    if |task| > 0 {
      var x := RemoveFirstSynonym(table, ds, task[0]);
      RemoveFirstDropsName(table, ds, task[0]);
      RemoveDuplicatesDropsNames(table, task[1..], x);
      forall k, e | 0 <= k < |task| && e in RemoveDuplicates(table, task, ds)
        ensures e.name != task[k].name
      {
        if k > 0 {
          assert task[k] == task[1..][k - 1];
        }
      }
    }
  }

  /** Names that key no table entry and are pairwise different are well separated. */
  lemma {:induction false} UnkeyedDistinctSeparated(table: SynonymTable, ds: seq<ArgSpec>)
    requires forall i, k :: 0 <= i < |ds| && 0 <= k < |table| ==> table[k].0 != ds[i].name
    requires forall i, j :: 0 <= i < j < |ds| ==> ds[i].name != ds[j].name
    ensures WellSeparated(table, ds)
    decreases |ds|
  {
    if |ds| > 0 {
      forall e | e in ds[1..]
        ensures !AreSynonyms(table, ds[0].name, e.name)
      {
        UnkeyedHasNoSynonyms(table, ds[0].name, e.name);
      }
      assert forall i :: 0 <= i < |ds[1..]| ==> ds[1..][i] == ds[i + 1];
      UnkeyedDistinctSeparated(table, ds[1..]);
    }
  }

  /** A name with a character missing from the text `--dali-separ-val` is no synonym of `--separ-val`. */
  lemma NotSynonymOfSeparVal(name: string, c: char)
    requires c in name && c !in "--dali-separ-val"
    ensures !AreSynonyms(SynonymsList, "--separ-val", name)
  {
    NotSubstringByChar(name, "--dali-separ-val", c);
  }

  /** The text `--dali-separ-val` has no `h` and no `n`. */
  lemma SeparValTextLacks(c: char)
    requires c == 'h' || c == 'n'
    ensures c !in SynonymsList[0].1
  {
  }

  /** A name with an `h` or an `n` at some position is no synonym of `--separ-val`. */
  lemma NotSynonymAt(name: string, at: int)
    requires 0 <= at < |name| && (name[at] == 'h' || name[at] == 'n')
    ensures !AreSynonyms(SynonymsList, "--separ-val", name)
  {
    SeparValTextLacks(name[at]);
    NotSynonymOfSeparVal(name, name[at]);
  }

  /** A name longer than the text `--dali-separ-val` is no synonym of `--separ-val`. */
  lemma NotSynonymLonger(name: string)
    requires |name| > |SynonymsList[0].1|
    ensures !AreSynonyms(SynonymsList, "--separ-val", name)
  {
  }

  /** `--separ-val` is not a synonym of the name of any later default. */
  lemma SeparValVsDefault(k: int)
    requires 1 <= k < |DefaultArgs|
    ensures !AreSynonyms(SynonymsList, "--separ-val", DefaultArgs[k].name)
  {
    if k == 1 {
      NotSynonymAt(DefaultArgs[1].name, 8);
    } else if k == 2 || k == 3 {
      NotSynonymLonger(DefaultArgs[k].name);
    } else if k == 4 {
      NotSynonymAt(DefaultArgs[4].name, 2);
    } else {
      NotSynonymAt(DefaultArgs[5].name, 9);
    }
  }

  /** The first default, `--separ-val`, is not a synonym of any later default's name. */
  lemma FirstDefaultSeparated()
    ensures forall e :: e in DefaultArgs[1..] ==> !AreSynonyms(SynonymsList, DefaultArgs[0].name, e.name)
  {
    var d := DefaultArgs;
    forall e | e in d[1..]
      ensures !AreSynonyms(SynonymsList, d[0].name, e.name)
    {
      var k :| 0 <= k < |d[1..]| && d[1..][k] == e;
      SeparValVsDefault(k + 1);
    }
  }

  /** The later defaults key no entry and have pairwise different names. */
  lemma LaterDefaultsSeparated()
    ensures WellSeparated(SynonymsList, DefaultArgs[1..])
  {
    var rest := DefaultArgs[1..];
    assert rest[0].name[2] != rest[3].name[2];
    forall i | 0 <= i < |rest|
      ensures SynonymsList[0].0 != rest[i].name
    {
      assert |rest[i].name| != |SynonymsList[0].0|;
    }
    UnkeyedDistinctSeparated(SynonymsList, rest);
  }

  /** The real default list has no default hidden behind an earlier synonym. */
  lemma DefaultArgsWellSeparated()
    ensures WellSeparated(SynonymsList, DefaultArgs)
  {
    FirstDefaultSeparated();
    LaterDefaultsSeparated();
  }

  /* --------------------------------------------------------- registration */

  /** One `group.add_argument` call: a 3-tuple is an action flag, a longer tuple a typed option with a default. */
  function Register(a: ArgSpec): (r: Result<Registration>)
    ensures r.Ok? ==> r.value.name == a.name
    ensures (r.Ok? && r.value.ActionFlag?) <==> |a.fields| == 2
    ensures (r.Ok? && r.value.TypedOption?) <==> |a.fields| >= 3
    ensures r.Err? ==> r.error == IndexError
  {
    if |a.fields| == 2 then Ok(ActionFlag(a.name, a.fields[0], a.fields[1]))
    else if |a.fields| >= 3 then Ok(TypedOption(a.name, a.fields[0], a.fields[1], a.fields[2]))
    else Err(IndexError)
  }

  /** The tuple a registration was read from, without the fields beyond the fourth element that are never read. */
  function Describe(g: Registration): ArgSpec {
    match g
    case ActionFlag(n, action, help) => ArgSpec(n, [action, help])
    case TypedOption(n, kind, default, help) => ArgSpec(n, [kind, default, help])
  }

  /** A registration records every element of the tuple that is read; extra elements are ignored. */
  lemma RegisterKeepsFields(a: ArgSpec)
    requires Register(a).Ok?
    ensures Describe(Register(a).value) == ArgSpec(a.name, a.fields[..if |a.fields| == 2 then 2 else 3])
    ensures |a.fields| <= 3 ==> Describe(Register(a).value) == a
  {
    assert a.fields[..|a.fields|] == a.fields;
  }

  /** Caller's arguments first, then the surviving defaults. */
  function MergedArgs(table: SynonymTable, task: seq<ArgSpec>, defaults: seq<ArgSpec>): (r: seq<ArgSpec>)
    ensures |task| <= |r| && r[..|task|] == task
    ensures r[|task|..] == RemoveDuplicates(table, task, defaults)
    ensures forall e :: e in r ==> e in task || e in defaults
  {
    var survivors := RemoveDuplicates(table, task, defaults);
    assert (task + survivors)[..|task|] == task;
    assert (task + survivors)[|task|..] == survivors;
    task + survivors
  }

  /** argparse reads a name starting with `-` as an option string; any other name is a positional argument. */
  predicate IsOption(name: string) {
    |name| > 0 && name[0] == '-'
  }

  /** No option string is already held by the parser, and none occurs twice in `args`. */
  predicate NoConflicts(taken: set<string>, args: seq<ArgSpec>) {
    forall i :: 0 <= i < |args| && IsOption(args[i].name) ==>
      args[i].name !in taken && forall j :: 0 <= j < i ==> args[j].name != args[i].name
  }

  /** The option strings the parser holds once `a` is registered. */
  function Claim(taken: set<string>, a: ArgSpec): set<string> {
    if IsOption(a.name) then taken + {a.name} else taken
  }

  /**
    One `group.add_argument` call on a parser already holding the option strings `taken`:
    the tuple's elements are read first, then argparse rejects an option string in use.
   */
  function AddArgument(taken: set<string>, a: ArgSpec): (r: Result<Registration>)
    ensures Register(a).Err? ==> r == Register(a)
    ensures Register(a).Ok? ==> (r.Ok? <==> !(IsOption(a.name) && a.name in taken))
    ensures r.Ok? ==> r == Register(a)
    ensures r.Err? && Register(a).Ok? ==> r.error == ArgumentError
  {
    var g :- Register(a);
    if IsOption(a.name) && a.name in taken then Err(ArgumentError) else Ok(g)
  }

  /** The tuples registered in order; the first call that raises ends the registration. */
  function RegisterAll(taken: set<string>, args: seq<ArgSpec>): (r: Result<seq<Registration>>)
    ensures r.Ok? ==> |r.value| == |args| && forall i :: 0 <= i < |args| ==> Register(args[i]) == Ok(r.value[i])
    ensures r.Ok? <==> (forall i :: 0 <= i < |args| ==> |args[i].fields| >= 2) && NoConflicts(taken, args)
    ensures r.Err? ==> r.error == IndexError || r.error == ArgumentError
    ensures (forall i :: 0 <= i < |args| ==> |args[i].fields| >= 2) && !NoConflicts(taken, args) ==> r == Err(ArgumentError)
    ensures NoConflicts(taken, args) && r.Err? ==> r == Err(IndexError)
    decreases |args|
  {
    if |args| == 0 then Ok([])
    else
      NoConflictsStep(taken, args);
      assert forall i :: 1 <= i < |args| ==> args[i] == args[1..][i - 1];
      var g :- AddArgument(taken, args[0]);
      var rest :- RegisterAll(Claim(taken, args[0]), args[1..]);
      Ok([g] + rest)
  }

  /** Registering the first tuple moves its option string into the parser's set. */
  lemma NoConflictsStep(taken: set<string>, args: seq<ArgSpec>)
    requires |args| > 0
    ensures NoConflicts(taken, args) <==>
              !(IsOption(args[0].name) && args[0].name in taken) && NoConflicts(Claim(taken, args[0]), args[1..])
  {
    var rest := args[1..];
    var taken' := Claim(taken, args[0]);
    if NoConflicts(taken, args) {
      forall i | 0 <= i < |rest| && IsOption(rest[i].name)
        ensures rest[i].name !in taken' && forall j :: 0 <= j < i ==> rest[j].name != rest[i].name
      {
        assert rest[i] == args[i + 1];
        assert args[0].name != args[i + 1].name;
        forall j | 0 <= j < i ensures rest[j].name != rest[i].name {
          assert rest[j] == args[j + 1];
        }
      }
    }
    if !(IsOption(args[0].name) && args[0].name in taken) && NoConflicts(taken', rest) {
      forall i | 0 <= i < |args| && IsOption(args[i].name)
        ensures args[i].name !in taken && forall j :: 0 <= j < i ==> args[j].name != args[i].name
      {
        if i > 0 {
          assert args[i] == rest[i - 1];
          forall j | 0 <= j < i ensures args[j].name != args[i].name {
            if j > 0 { assert args[j] == rest[j - 1]; }
          }
        }
      }
    }
  }

  /**
    `add_dali_pipeline_args` up to the registration calls, on a parser already holding the
    option strings `taken`. `None` for the caller's arguments cannot be iterated, a tuple
    shorter than three raises `IndexError`, and an option string registered twice, or already
    held by the parser, raises argparse's `ArgumentError`.
   */
  function AddDaliPipelineArgs(taken: set<string>, taskArgs: Option<seq<ArgSpec>>): (r: Result<seq<Registration>>)
    ensures taskArgs.None? ==> r == Err(TypeError)
    ensures r.Ok? ==> (taskArgs.Some? &&
      var merged := MergedArgs(SynonymsList, taskArgs.value, DefaultArgs);
      |r.value| == |merged| && forall i :: 0 <= i < |merged| ==> Register(merged[i]) == Ok(r.value[i]))
    ensures taskArgs.Some? ==>
      var merged := MergedArgs(SynonymsList, taskArgs.value, DefaultArgs);
      (r.Ok? <==> (forall e :: e in merged ==> |e.fields| >= 2) && NoConflicts(taken, merged))
    ensures r.Err? ==> r.error in {TypeError, IndexError, ArgumentError}
  {
    match taskArgs
    case None => Err(TypeError)
    case Some(task) =>
      var merged := MergedArgs(SynonymsList, task, DefaultArgs);
      RegisterAll(taken, merged)
  }

  /** Two caller tuples with the same option name make the second registration raise `ArgumentError`. */
  lemma DuplicateCallerNamesRejected(taken: set<string>, task: seq<ArgSpec>, i: nat, j: nat)
    requires i < j < |task| && task[i].name == task[j].name && IsOption(task[j].name)
    requires forall e :: e in task ==> |e.fields| >= 2
    ensures AddDaliPipelineArgs(taken, Some(task)) == Err(ArgumentError)
  {
    var merged := MergedArgs(SynonymsList, task, DefaultArgs);
    assert forall e :: e in DefaultArgs ==> |e.fields| >= 2;
    assert merged[i] == task[i] && merged[j] == task[j];
    assert !NoConflicts(taken, merged);
  }

  /**
    When a caller's argument is named like a default, only the caller's argument carries
    that name in the merged list: the default with that name is always the one removed.
   */
  lemma CallerWins(task: seq<ArgSpec>)
    ensures forall k, e :: 0 <= k < |task| && e in MergedArgs(SynonymsList, task, DefaultArgs) && e.name == task[k].name
              ==> e in task
  {
    DefaultArgsWellSeparated();
    RemoveDuplicatesDropsNames(SynonymsList, task, DefaultArgs);
  }
}
