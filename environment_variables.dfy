/**
 * The environment-variable text field of the plugin's run configurations. It holds an ordered
 * map of variables and a list of "protected" names; it shows the variables as a one-line
 * summary `k=v;k=v`, offers them to an edit table with the protected names first and read-only,
 * and rebuilds the map from what the table hands back.
 *
 * The derived views are functions of the two pieces of state (`protectedVarNames`, `envVars`);
 * the class `EnvironmentVariablesTextField` holds that state and the operations that change it.
 */
module EnvironmentVariablesField {
  import opened Wrappers
  import opened Text
  import opened OrderedMaps
  import opened Sequences

  /**
   * A row of the edit table: `EnvironmentVariable(name, value, isPredefined)`, which the field
   * builds as a `VariableWithProtection` whose flag says the name is protected.
   */
  datatype Variable = Variable(name: string, value: string, nameProtected: bool) {
    /** `getNameIsWriteable()`: the name may be edited unless it is protected. */
    predicate NameIsWriteable() {
      !nameProtected
    }
  }

  /** `isProtectedVar`. */
  predicate IsProtectedVar(protectedVarNames: seq<string>, varName: string) {
    varName in protectedVarNames
  }

  /**
   * `protectedEntries()`: every protected name, in the order given, paired with its value in
   * `envVars`, or with `""` when the map lacks it.
   */
  function ProtectedEntries(protectedVarNames: seq<string>, envVars: OrderedMap<string>): (r: seq<(string, string)>)
    ensures |r| == |protectedVarNames|
    ensures forall i | 0 <= i < |r| ::
      r[i] == (protectedVarNames[i], GetOrDefault(envVars, protectedVarNames[i], ""))
  {
    if protectedVarNames == [] then []
    else
      [(protectedVarNames[0], GetOrDefault(envVars, protectedVarNames[0], ""))]
        + ProtectedEntries(protectedVarNames[1..], envVars)
  }

  /** `unprotectedEntries()`: the entries of `envVars` whose name is not protected, in map order. */
  function UnprotectedEntries(protectedVarNames: seq<string>, envVars: OrderedMap<string>): (r: seq<(string, string)>)
    ensures forall e | e in r :: e in envVars && !IsProtectedVar(protectedVarNames, e.0)
    ensures forall e | e in envVars && !IsProtectedVar(protectedVarNames, e.0) :: e in r
    ensures NoDuplicateKeys(envVars) ==> NoDuplicateKeys(r)
  {
    if envVars == [] then []
    else
      var rest := UnprotectedEntries(protectedVarNames, envVars[1..]);
      if IsProtectedVar(protectedVarNames, envVars[0].0) then rest
      else
        assert forall e | e in rest :: e in envVars[1..];
        [envVars[0]] + rest
  }

  /**
   * `unprotectedEntries()` is the `filter` of `envVars` in map order: the entries it keeps keep
   * their order, and each kept entry occurs exactly as often as in `envVars`.
   */
  lemma {:induction false} UnprotectedEntriesInOrder(protectedVarNames: seq<string>, envVars: OrderedMap<string>)
    ensures var r := UnprotectedEntries(protectedVarNames, envVars);
      && IsSubsequence(r, envVars)
      && forall e :: multiset(r)[e] == if IsProtectedVar(protectedVarNames, e.0) then 0 else multiset(envVars)[e]
  {
    if envVars != [] {
      var rest := UnprotectedEntries(protectedVarNames, envVars[1..]);
      UnprotectedEntriesInOrder(protectedVarNames, envVars[1..]);
      assert envVars == [envVars[0]] + envVars[1..];
      if IsProtectedVar(protectedVarNames, envVars[0].0) {
        SubsequenceDrop(envVars[0], rest, envVars[1..]);
      } else {
        SubsequenceKeep(envVars[0], rest, envVars[1..]);
      }
    }
  }

  /** The entries as table rows, all with the same protection flag. */
  function AsVariables(entries: seq<(string, string)>, nameProtected: bool): (r: seq<Variable>)
    ensures |r| == |entries|
    ensures forall i | 0 <= i < |r| :: r[i] == Variable(entries[i].0, entries[i].1, nameProtected)
  {
    if entries == [] then [] else [Variable(entries[0].0, entries[0].1, nameProtected)] + AsVariables(entries[1..], nameProtected)
  }

  /**
   * `convertToVariables()`: first one protected row per protected name, in `protectedVarNames`
   * order, valued from `envVars` or `""`; then one unprotected row per unprotected entry.
   */
  function ConvertToVariables(protectedVarNames: seq<string>, envVars: OrderedMap<string>): (r: seq<Variable>)
    ensures |r| == |protectedVarNames| + |UnprotectedEntries(protectedVarNames, envVars)|
    ensures forall i | 0 <= i < |protectedVarNames| ::
      r[i] == Variable(protectedVarNames[i], GetOrDefault(envVars, protectedVarNames[i], ""), true)
    ensures forall i | |protectedVarNames| <= i < |r| ::
      var e := UnprotectedEntries(protectedVarNames, envVars)[i - |protectedVarNames|];
      r[i] == Variable(e.0, e.1, false)
  {
    AsVariables(ProtectedEntries(protectedVarNames, envVars), true)
      + AsVariables(UnprotectedEntries(protectedVarNames, envVars), false)
  }

  /** Every row's name is writeable exactly when it is not a protected name. */
  lemma ConvertedNameWriteable(protectedVarNames: seq<string>, envVars: OrderedMap<string>, i: nat)
    requires i < |ConvertToVariables(protectedVarNames, envVars)|
    ensures var v := ConvertToVariables(protectedVarNames, envVars)[i];
      v.NameIsWriteable() <==> !IsProtectedVar(protectedVarNames, v.name)
  {
    var r := ConvertToVariables(protectedVarNames, envVars);
    var us := UnprotectedEntries(protectedVarNames, envVars);
    if i >= |protectedVarNames| {
      assert us[i - |protectedVarNames|] in us;
    }
  }

  /**
   * The two parts of `convertToVariables()` share no name, and every entry of `envVars` is
   * offered with its value: under its protected row or as an unprotected row.
   */
  lemma ConvertedPartsDisjointAndComplete(protectedVarNames: seq<string>, envVars: OrderedMap<string>)
    requires NoDuplicateKeys(envVars)
    ensures var r := ConvertToVariables(protectedVarNames, envVars);
      forall i, j | 0 <= i < |protectedVarNames| <= j < |r| :: r[i].name != r[j].name
    ensures var r := ConvertToVariables(protectedVarNames, envVars);
      forall e | e in envVars :: exists v | v in r :: v.name == e.0 && v.value == e.1
  {
    var r := ConvertToVariables(protectedVarNames, envVars);
    var us := UnprotectedEntries(protectedVarNames, envVars);
    var n := |protectedVarNames|;
    forall i, j | 0 <= i < n <= j < |r| ensures r[i].name != r[j].name {
      assert r[i].name == protectedVarNames[i];
      assert r[j].name == us[j - n].0 && us[j - n] in us;
    }
    forall e | e in envVars ensures exists v | v in r :: v.name == e.0 && v.value == e.1 {
      var k :| 0 <= k < |envVars| && envVars[k] == e;
      if IsProtectedVar(protectedVarNames, e.0) {
        var i :| 0 <= i < n && protectedVarNames[i] == e.0;
        GetEntry(envVars, k);
        assert r[i] == Variable(e.0, e.1, true) && r[i] in r;
      } else {
        var j :| 0 <= j < |us| && us[j] == e;
        assert r[n + j] == Variable(e.0, e.1, false) && r[n + j] in r;
      }
    }
  }

  /** The protected entries that have a non-blank value. */
  function NonBlankEntries(entries: seq<(string, string)>): (r: seq<(string, string)>)
    ensures forall e | e in r :: e in entries && !IsBlank(e.1)
    ensures forall e | e in entries && !IsBlank(e.1) :: e in r
  {
    if entries == [] then []
    else
      var rest := NonBlankEntries(entries[1..]);
      if IsBlank(entries[0].1) then rest else [entries[0]] + rest
  }

  /**
   * The `filter` of the protected entries keeps them in order, and each entry with a non-blank
   * value occurs exactly as often as among `entries`.
   */
  lemma {:induction false} NonBlankEntriesInOrder(entries: seq<(string, string)>)
    ensures var r := NonBlankEntries(entries);
      && IsSubsequence(r, entries)
      && forall e :: multiset(r)[e] == if IsBlank(e.1) then 0 else multiset(entries)[e]
  {
    if entries != [] {
      var rest := NonBlankEntries(entries[1..]);
      NonBlankEntriesInOrder(entries[1..]);
      assert entries == [entries[0]] + entries[1..];
      if IsBlank(entries[0].1) {
        SubsequenceDrop(entries[0], rest, entries[1..]);
      } else {
        SubsequenceKeep(entries[0], rest, entries[1..]);
      }
    }
  }

  /** The pairs the summary line shows: non-blank protected entries, then every unprotected one. */
  function StringifiedEntries(protectedVarNames: seq<string>, envVars: OrderedMap<string>): seq<(string, string)> {
    NonBlankEntries(ProtectedEntries(protectedVarNames, envVars)) + UnprotectedEntries(protectedVarNames, envVars)
  }

  /** `"$key=$value"`. */
  function Render(e: (string, string)): string {
    e.0 + "=" + e.1
  }

  function RenderAll(entries: seq<(string, string)>): (r: seq<string>)
    ensures |r| == |entries|
    ensures forall i | 0 <= i < |r| :: r[i] == Render(entries[i])
  {
    if entries == [] then [] else [Render(entries[0])] + RenderAll(entries[1..])
  }

  /** `stringify()`: the summary line, the rendered pairs joined with `;`. */
  function Stringify(protectedVarNames: seq<string>, envVars: OrderedMap<string>): string {
    Join(";", RenderAll(StringifiedEntries(protectedVarNames, envVars)))
  }

  /**
   * The summary shows a pair exactly when it is a protected name with its non-blank value, or an
   * entry of `envVars` whose name is not protected; and all protected pairs come first.
   */
  lemma StringifiedEntriesMembers(protectedVarNames: seq<string>, envVars: OrderedMap<string>, e: (string, string))
    ensures e in StringifiedEntries(protectedVarNames, envVars) <==>
      || (IsProtectedVar(protectedVarNames, e.0) && e.1 == GetOrDefault(envVars, e.0, "") && !IsBlank(e.1))
      || (e in envVars && !IsProtectedVar(protectedVarNames, e.0))
  {
    var ps := ProtectedEntries(protectedVarNames, envVars);
    if IsProtectedVar(protectedVarNames, e.0) && e.1 == GetOrDefault(envVars, e.0, "") {
      var i :| 0 <= i < |protectedVarNames| && protectedVarNames[i] == e.0;
      assert ps[i] == e;
    }
  }

  lemma StringifiedProtectedFirst(protectedVarNames: seq<string>, envVars: OrderedMap<string>, i: nat, j: nat)
    requires i < j < |StringifiedEntries(protectedVarNames, envVars)|
    requires IsProtectedVar(protectedVarNames, StringifiedEntries(protectedVarNames, envVars)[j].0)
    ensures IsProtectedVar(protectedVarNames, StringifiedEntries(protectedVarNames, envVars)[i].0)
  {
    var ns := NonBlankEntries(ProtectedEntries(protectedVarNames, envVars));
    var us := UnprotectedEntries(protectedVarNames, envVars);
    var es := StringifiedEntries(protectedVarNames, envVars);
    if j >= |ns| {
      assert false;
    } else {
      assert es[i] == ns[i] && ns[i] in ns;
    }
  }

  /** Reads a summary line back into its pairs: cut at every `;`, then each part at its first `=`. */
  function ParseSummary(text: string): seq<(string, string)> {
    if text == "" then [] else ParsePairs(Split(text, ';'))
  }

  /** Each part cut at its first `=`: the name before it, the value after it. */
  function ParsePairs(parts: seq<string>): (r: seq<(string, string)>)
    ensures |r| == |parts|
    ensures forall i | 0 <= i < |parts| :: '=' !in r[i].0
    ensures forall i | 0 <= i < |parts| :: '=' in parts[i] ==> r[i].0 + "=" + r[i].1 == parts[i]
    ensures forall i | 0 <= i < |parts| :: '=' !in parts[i] ==> r[i] == (parts[i], "")
  {
    if parts == [] then [] else [SplitAtFirst(parts[0], '=')] + ParsePairs(parts[1..])
  }

  /** A name or value that the summary line can carry without being misread. */
  predicate SummarySafe(protectedVarNames: seq<string>, envVars: OrderedMap<string>) {
    && (forall name | name in protectedVarNames :: ';' !in name && '=' !in name)
    && (forall e | e in envVars :: ';' !in e.0 && '=' !in e.0 && ';' !in e.1)
  }

  lemma {:induction false} ParseRendered(entries: seq<(string, string)>)
    requires forall e | e in entries :: '=' !in e.0
    ensures ParsePairs(RenderAll(entries)) == entries
  {
    if entries != [] {
      ParseRendered(entries[1..]);
      SplitAtFirstPair(entries[0].0, entries[0].1, '=');
      assert RenderAll(entries)[1..] == RenderAll(entries[1..]);
    }
  }

  /**
   * When no name contains `;` or `=` and no value contains `;`, the summary line determines the
   * pairs it shows: reading it back gives exactly those pairs, in order.
   */
  lemma StringifyRoundTrip(protectedVarNames: seq<string>, envVars: OrderedMap<string>)
    requires SummarySafe(protectedVarNames, envVars)
    ensures ParseSummary(Stringify(protectedVarNames, envVars)) == StringifiedEntries(protectedVarNames, envVars)
  {
    var es := StringifiedEntries(protectedVarNames, envVars);
    forall e | e in es ensures ';' !in e.0 && '=' !in e.0 && ';' !in e.1 {
      StringifiedEntriesMembers(protectedVarNames, envVars, e);
    }
    var parts := RenderAll(es);
    if es != [] {
      assert forall i | 0 <= i < |parts| :: ';' !in parts[i] by {
        forall i | 0 <= i < |parts| ensures ';' !in parts[i] {
          assert es[i] in es;
          assert parts[i] == es[i].0 + "=" + es[i].1;
        }
      }
      SplitJoin(parts, ';');
      assert |Join(";", parts)| > 0 by {
        if |parts| > 1 {
          assert Join(";", parts) == parts[0] + ";" + Join(";", parts[1..]);
        }
      }
      ParseRendered(es);
    }
  }

  /** The table edits `acceptEditedVariables` keeps: all but the protected ones left blank. */
  predicate Kept(protectedVarNames: seq<string>, v: Variable) {
    !IsProtectedVar(protectedVarNames, v.name) || !IsBlank(v.value)
  }

  /** One step of the `forEach` in `acceptEditedVariables`. */
  function AcceptStep(protectedVarNames: seq<string>, m: OrderedMap<string>, v: Variable): (r: OrderedMap<string>)
    ensures Kept(protectedVarNames, v) ==> Get(r, v.name) == Some(Trim(v.value))
    ensures !Kept(protectedVarNames, v) ==> r == m
    ensures forall k | k != v.name :: Get(r, k) == Get(m, k)
  {
    if Kept(protectedVarNames, v) then Put(m, v.name, Trim(v.value)) else m
  }

  /** The `forEach` in `acceptEditedVariables`, filling `m` with the edited rows in order. */
  function AcceptInto(protectedVarNames: seq<string>, m: OrderedMap<string>, edited: seq<Variable>): OrderedMap<string>
    decreases |edited|
  {
    if edited == [] then m else AcceptInto(protectedVarNames, AcceptStep(protectedVarNames, m, edited[0]), edited[1..])
  }

  /** The map `acceptEditedVariables` builds from the edited rows. */
  function AcceptEdited(protectedVarNames: seq<string>, edited: seq<Variable>): OrderedMap<string> {
    AcceptInto(protectedVarNames, [], edited)
  }

  /** The value of the last kept row named `k`, untrimmed. */
  function LastKept(protectedVarNames: seq<string>, edited: seq<Variable>, k: string): Option<string> {
    if edited == [] then None
    else
      var later := LastKept(protectedVarNames, edited[1..], k);
      if later.Some? then later
      else if edited[0].name == k && Kept(protectedVarNames, edited[0]) then Some(edited[0].value)
      else None
  }

  lemma {:induction false} AcceptIntoGet(protectedVarNames: seq<string>, m: OrderedMap<string>, edited: seq<Variable>, k: string)
    ensures Get(AcceptInto(protectedVarNames, m, edited), k) ==
      match LastKept(protectedVarNames, edited, k)
      case Some(v) => Some(Trim(v))
      case None => Get(m, k)
    decreases |edited|
  {
    if edited != [] {
      AcceptIntoGet(protectedVarNames, AcceptStep(protectedVarNames, m, edited[0]), edited[1..], k);
    }
  }

  /** `LastKept` finds the last kept row with that name, and nothing when there is none. */
  lemma {:induction false} LastKeptIsLast(protectedVarNames: seq<string>, edited: seq<Variable>, k: string)
    ensures var r := LastKept(protectedVarNames, edited, k);
      r.Some? <==> exists i | 0 <= i < |edited| :: edited[i].name == k && Kept(protectedVarNames, edited[i])
    ensures var r := LastKept(protectedVarNames, edited, k);
      r.Some? ==> exists i | 0 <= i < |edited| ::
        && edited[i].name == k && Kept(protectedVarNames, edited[i]) && edited[i].value == r.value
        && forall j | i < j < |edited| :: !(edited[j].name == k && Kept(protectedVarNames, edited[j]))
  {
    if edited != [] {
      LastKeptIsLast(protectedVarNames, edited[1..], k);
      var tail := edited[1..];
      var later := LastKept(protectedVarNames, tail, k);
      if later.Some? {
        var i :| 0 <= i < |tail| && tail[i].name == k && Kept(protectedVarNames, tail[i]) && tail[i].value == later.value
          && forall j | i < j < |tail| :: !(tail[j].name == k && Kept(protectedVarNames, tail[j]));
        assert edited[i + 1] == tail[i];
        forall j | i + 1 < j < |edited| ensures !(edited[j].name == k && Kept(protectedVarNames, edited[j])) {
          assert edited[j] == tail[j - 1];
        }
      } else {
        forall i | 1 <= i < |edited| ensures !(edited[i].name == k && Kept(protectedVarNames, edited[i])) {
          assert edited[i] == tail[i - 1];
        }
      }
    }
  }

  /**
   * After `acceptEditedVariables`, a name is present exactly when some row with that name was
   * kept, and its value is the trimmed value of the last such row: later rows overwrite earlier.
   */
  lemma AcceptEditedGet(protectedVarNames: seq<string>, edited: seq<Variable>, k: string)
    ensures var r := Get(AcceptEdited(protectedVarNames, edited), k);
      r.Some? <==> exists i | 0 <= i < |edited| :: edited[i].name == k && Kept(protectedVarNames, edited[i])
    ensures var r := Get(AcceptEdited(protectedVarNames, edited), k);
      r.Some? ==> exists i | 0 <= i < |edited| ::
        && edited[i].name == k && Kept(protectedVarNames, edited[i]) && r.value == Trim(edited[i].value)
        && forall j | i < j < |edited| :: !(edited[j].name == k && Kept(protectedVarNames, edited[j]))
  {
    AcceptIntoGet(protectedVarNames, [], edited, k);
    LastKeptIsLast(protectedVarNames, edited, k);
  }

  /** A row is dropped only when its name is protected and its value blank. */
  lemma AcceptEditedDropsOnlyBlankProtected(protectedVarNames: seq<string>, edited: seq<Variable>, i: nat)
    requires i < |edited|
    ensures edited[i].name in Keys(AcceptEdited(protectedVarNames, edited)) <==>
      exists j | 0 <= j < |edited| :: edited[j].name == edited[i].name && Kept(protectedVarNames, edited[j])
  {
    AcceptEditedGet(protectedVarNames, edited, edited[i].name);
  }

  lemma {:induction false} AcceptIntoNoDuplicateKeys(protectedVarNames: seq<string>, m: OrderedMap<string>, edited: seq<Variable>)
    requires NoDuplicateKeys(m)
    ensures NoDuplicateKeys(AcceptInto(protectedVarNames, m, edited))
    decreases |edited|
  {
    if edited != [] {
      var v := edited[0];
      if Kept(protectedVarNames, v) {
        PutNoDuplicateKeys(m, v.name, Trim(v.value));
      }
      AcceptIntoNoDuplicateKeys(protectedVarNames, AcceptStep(protectedVarNames, m, v), edited[1..]);
    }
  }

  lemma {:induction false} AcceptIntoTrimmed(protectedVarNames: seq<string>, m: OrderedMap<string>, edited: seq<Variable>)
    requires forall e | e in m :: IsTrimmed(e.1)
    ensures forall e | e in AcceptInto(protectedVarNames, m, edited) :: IsTrimmed(e.1)
    decreases |edited|
  {
    if edited != [] {
      var v := edited[0];
      if Kept(protectedVarNames, v) {
        PutEntries(m, v.name, Trim(v.value));
        TrimIsTrimmed(v.value);
      }
      AcceptIntoTrimmed(protectedVarNames, AcceptStep(protectedVarNames, m, v), edited[1..]);
    }
  }

  lemma {:induction false} AcceptIntoKeysGrow(protectedVarNames: seq<string>, m: OrderedMap<string>, edited: seq<Variable>)
    ensures Keys(m) <= Keys(AcceptInto(protectedVarNames, m, edited))
    decreases |edited|
  {
    if edited != [] {
      var m' := AcceptStep(protectedVarNames, m, edited[0]);
      PutKeys(m, edited[0].name, Trim(edited[0].value));
      assert Keys(m) <= Keys(m');
      AcceptIntoKeysGrow(protectedVarNames, m', edited[1..]);
    }
  }

  /**
   * The map `acceptEditedVariables` builds has distinct keys and only trimmed values, and its
   * key order is first-insertion order: the keys built from any prefix of the rows are a prefix
   * of the final keys.
   */
  lemma AcceptEditedShape(protectedVarNames: seq<string>, edited: seq<Variable>, n: nat)
    requires n <= |edited|
    ensures var r := AcceptEdited(protectedVarNames, edited);
      NoDuplicateKeys(r) && forall e | e in r :: IsTrimmed(e.1)
    ensures Keys(AcceptEdited(protectedVarNames, edited[..n])) <= Keys(AcceptEdited(protectedVarNames, edited))
  {
    AcceptIntoNoDuplicateKeys(protectedVarNames, [], edited);
    AcceptIntoTrimmed(protectedVarNames, [], edited);
    var m := AcceptEdited(protectedVarNames, edited[..n]);
    AcceptIntoSplit(protectedVarNames, [], edited[..n], edited[n..]);
    assert edited[..n] + edited[n..] == edited;
    AcceptIntoKeysGrow(protectedVarNames, m, edited[n..]);
  }

  lemma {:induction false} AcceptIntoSplit(protectedVarNames: seq<string>, m: OrderedMap<string>, a: seq<Variable>, b: seq<Variable>)
    ensures AcceptInto(protectedVarNames, m, a + b) == AcceptInto(protectedVarNames, AcceptInto(protectedVarNames, m, a), b)
    decreases |a|
  {
    if a == [] {
      assert a + b == b;
    } else {
      assert (a + b)[1..] == a[1..] + b;
      AcceptIntoSplit(protectedVarNames, AcceptStep(protectedVarNames, m, a[0]), a[1..], b);
    }
  }

  lemma {:induction false} LastKeptAppend(protectedVarNames: seq<string>, a: seq<Variable>, b: seq<Variable>, k: string)
    ensures LastKept(protectedVarNames, a + b, k) ==
      if LastKept(protectedVarNames, b, k).Some? then LastKept(protectedVarNames, b, k) else LastKept(protectedVarNames, a, k)
  {
    if a == [] {
      assert a + b == b;
    } else {
      assert (a + b)[1..] == a[1..] + b;
      LastKeptAppend(protectedVarNames, a[1..], b, k);
    }
  }

  lemma {:induction false} LastKeptAbsent(protectedVarNames: seq<string>, vs: seq<Variable>, k: string)
    requires forall i | 0 <= i < |vs| :: vs[i].name != k
    ensures LastKept(protectedVarNames, vs, k) == None
  {
    if vs != [] {
      LastKeptAbsent(protectedVarNames, vs[1..], k);
    }
  }

  /** Rows named `k` that all carry the same value `d` leave `d` if they are kept, else nothing. */
  lemma {:induction false} LastKeptUniform(protectedVarNames: seq<string>, vs: seq<Variable>, k: string, d: string)
    requires exists i | 0 <= i < |vs| :: vs[i].name == k
    requires forall i | 0 <= i < |vs| && vs[i].name == k :: vs[i].value == d
    ensures LastKept(protectedVarNames, vs, k) ==
      if Kept(protectedVarNames, Variable(k, d, true)) then Some(d) else None
  {
    var tail := vs[1..];
    if exists i | 0 <= i < |tail| :: tail[i].name == k {
      forall i | 0 <= i < |tail| && tail[i].name == k ensures tail[i].value == d {
        assert tail[i] == vs[i + 1];
      }
      LastKeptUniform(protectedVarNames, tail, k, d);
    } else {
      LastKeptAbsent(protectedVarNames, tail, k);
    }
  }

  /** A protected name: the edited rows hold it only among the protected rows, with its value or `""`. */
  lemma RoundTripProtectedName(protectedVarNames: seq<string>, envVars: OrderedMap<string>, k: string)
    requires forall e | e in envVars && IsProtectedVar(protectedVarNames, e.0) :: !IsBlank(e.1)
    requires IsProtectedVar(protectedVarNames, k)
    ensures LastKept(protectedVarNames, ConvertToVariables(protectedVarNames, envVars), k) == Get(envVars, k)
  {
    var ps := AsVariables(ProtectedEntries(protectedVarNames, envVars), true);
    var us := UnprotectedEntries(protectedVarNames, envVars);
    var uvs := AsVariables(us, false);
    assert ConvertToVariables(protectedVarNames, envVars) == ps + uvs;
    LastKeptAppend(protectedVarNames, ps, uvs, k);
    forall j | 0 <= j < |uvs| ensures uvs[j].name != k {
      assert us[j] in us;
    }
    LastKeptAbsent(protectedVarNames, uvs, k);
    ProtectedRowsUniform(protectedVarNames, envVars, k);
    LastKeptUniform(protectedVarNames, ps, k, GetOrDefault(envVars, k, ""));
    ProtectedValueKept(protectedVarNames, envVars, k);
  }

  /** A protected row is kept exactly when `envVars` holds its name, whose value is not blank. */
  lemma ProtectedValueKept(protectedVarNames: seq<string>, envVars: OrderedMap<string>, k: string)
    requires forall e | e in envVars && IsProtectedVar(protectedVarNames, e.0) :: !IsBlank(e.1)
    requires IsProtectedVar(protectedVarNames, k)
    ensures var d := GetOrDefault(envVars, k, "");
      (if Kept(protectedVarNames, Variable(k, d, true)) then Some(d) else None) == Get(envVars, k)
  {
    if Get(envVars, k).Some? {
      var j :| 0 <= j < |envVars| && envVars[j] == (k, Get(envVars, k).value);
      assert envVars[j] in envVars;
    }
  }

  /** The protected rows named `k` exist and all carry `k`'s value or `""`. */
  lemma ProtectedRowsUniform(protectedVarNames: seq<string>, envVars: OrderedMap<string>, k: string)
    requires IsProtectedVar(protectedVarNames, k)
    ensures exists i | 0 <= i < |AsVariables(ProtectedEntries(protectedVarNames, envVars), true)| ::
      AsVariables(ProtectedEntries(protectedVarNames, envVars), true)[i].name == k
    ensures var ps := AsVariables(ProtectedEntries(protectedVarNames, envVars), true);
      forall i | 0 <= i < |ps| && ps[i].name == k :: ps[i].value == GetOrDefault(envVars, k, "")
  {
    var es := ProtectedEntries(protectedVarNames, envVars);
    var ps := AsVariables(es, true);
    var i :| 0 <= i < |protectedVarNames| && protectedVarNames[i] == k;
    assert 0 <= i < |ps| && ps[i] == Variable(es[i].0, es[i].1, true);
  }

  /** An unprotected name: the edited rows hold it once, among the unprotected rows, if at all. */
  lemma RoundTripUnprotectedName(protectedVarNames: seq<string>, envVars: OrderedMap<string>, k: string)
    requires NoDuplicateKeys(envVars)
    requires !IsProtectedVar(protectedVarNames, k)
    ensures LastKept(protectedVarNames, ConvertToVariables(protectedVarNames, envVars), k) == Get(envVars, k)
  {
    var ps := AsVariables(ProtectedEntries(protectedVarNames, envVars), true);
    var us := UnprotectedEntries(protectedVarNames, envVars);
    var uvs := AsVariables(us, false);
    assert ConvertToVariables(protectedVarNames, envVars) == ps + uvs;
    LastKeptAppend(protectedVarNames, ps, uvs, k);
    LastKeptAbsent(protectedVarNames, ps, k);
    if Get(envVars, k).Some? {
      var d := Get(envVars, k).value;
      var j :| 0 <= j < |envVars| && envVars[j] == (k, d);
      assert envVars[j] in envVars;
      var i :| 0 <= i < |us| && us[i] == (k, d);
      forall i' | 0 <= i' < |uvs| && uvs[i'].name == k ensures uvs[i'].value == d {
        if i' != i {
          assert false;
        }
      }
      assert uvs[i].name == k;
      LastKeptUniform(protectedVarNames, uvs, k, d);
    } else {
      forall j | 0 <= j < |uvs| ensures uvs[j].name != k {
        assert us[j] in us;
      }
      LastKeptAbsent(protectedVarNames, uvs, k);
    }
  }

  /**
   * Feeding `convertToVariables()` back into `acceptEditedVariables` gives back the same
   * variables and values (the key order may differ) when every value is already trimmed and
   * every protected name that `envVars` holds has a non-blank value.
   */
  lemma ConvertAcceptRoundTrip(protectedVarNames: seq<string>, envVars: OrderedMap<string>)
    requires NoDuplicateKeys(envVars)
    requires forall e | e in envVars :: IsTrimmed(e.1)
    requires forall e | e in envVars && IsProtectedVar(protectedVarNames, e.0) :: !IsBlank(e.1)
    ensures ToMap(AcceptEdited(protectedVarNames, ConvertToVariables(protectedVarNames, envVars))) == ToMap(envVars)
  {
    var vars := ConvertToVariables(protectedVarNames, envVars);
    var r := AcceptEdited(protectedVarNames, vars);
    forall k ensures Get(r, k) == Get(envVars, k) {
      AcceptIntoGet(protectedVarNames, [], vars, k);
      if IsProtectedVar(protectedVarNames, k) {
        RoundTripProtectedName(protectedVarNames, envVars, k);
        if Get(envVars, k).Some? {
          var j :| 0 <= j < |envVars| && envVars[j] == (k, Get(envVars, k).value);
          assert envVars[j] in envVars;
        }
      } else {
        RoundTripUnprotectedName(protectedVarNames, envVars, k);
        if Get(envVars, k).Some? {
          var j :| 0 <= j < |envVars| && envVars[j] == (k, Get(envVars, k).value);
          assert envVars[j] in envVars;
        }
      }
    }
  }

  /**
   * `EnvironmentVariablesTextField`: the protected names, the variables (`data.envs`, read and
   * written through the `envVars` property) and the text the field displays.
   */
  class EnvironmentVariablesTextField {
    var protectedVarNames: seq<string>
    var envVars: OrderedMap<string>
    var text: string

    /** The field's text is always the summary of its state; the user cannot type into it. */
    ghost predicate Valid()
      reads this
    {
      NoDuplicateKeys(envVars) && text == Stringify(protectedVarNames, envVars)
    }

    /** A new field: no protected names, no variables, empty text. */
    constructor ()
      ensures Valid()
      ensures protectedVarNames == [] && envVars == [] && text == ""
    {
      protectedVarNames := [];
      envVars := [];
      text := "";
    }

    /** The `envVars` setter: stores the map and refreshes the text. */
    method SetEnvVars(value: OrderedMap<string>)
      requires NoDuplicateKeys(value)
      modifies this
      ensures Valid()
      ensures envVars == value && protectedVarNames == old(protectedVarNames)
      ensures text == Stringify(protectedVarNames, value)
    {
      envVars := value;
      text := Stringify(protectedVarNames, envVars);
    }

    /** `protectVariables(varNames)`: replaces the protected names and refreshes the text. */
    method ProtectVariables(varNames: seq<string>)
      requires Valid()
      modifies this
      ensures Valid()
      ensures protectedVarNames == varNames && envVars == old(envVars)
      ensures text == Stringify(varNames, envVars)
    {
      protectedVarNames := varNames;
      text := Stringify(protectedVarNames, envVars);
    }

    /**
     * `acceptEditedVariables(editedVariables)`: fills a fresh `LinkedHashMap` with the edited
     * rows, skipping blank protected ones and trimming values, then assigns it to `envVars`.
     */
    method AcceptEditedVariables(editedVariables: seq<Variable>)
      requires Valid()
      modifies this
      ensures Valid()
      ensures protectedVarNames == old(protectedVarNames)
      ensures envVars == AcceptEdited(protectedVarNames, editedVariables)
    {
      var newEnvVars: OrderedMap<string> := [];
      for i := 0 to |editedVariables|
        invariant AcceptInto(protectedVarNames, newEnvVars, editedVariables[i..]) == AcceptEdited(protectedVarNames, editedVariables)
      {
        var it := editedVariables[i];
        assert editedVariables[i..][1..] == editedVariables[i + 1..];
        if !IsProtectedVar(protectedVarNames, it.name) || !IsBlank(it.value) {
          newEnvVars := Put(newEnvVars, it.name, Trim(it.value));
        }
      }
      assert editedVariables[|editedVariables|..] == [];
      AcceptEditedShape(protectedVarNames, editedVariables, 0);
      SetEnvVars(newEnvVars);
    }
  }
}
