/**
 * The two registries that map a Tableau Prep `nodeType` tag to its
 * converter: one for steps, one for annotations. A lookup tries the exact
 * tag, then every registered tag ending with the tag's last dotted piece
 * (another version of the same kind of step), taking the last such in
 * registration order, and falls back to the `unknown` converter.
 */
module Registry {
  import opened Outcome
  import opened PyText

  /** The step converters. */
  datatype NodeKind =
    | LoadSql | LoadSqlProxy | LoadCsv | LoadCsvInputUnion | LoadExcel
    | Container | WriteToHyper | SuperAggregate | SuperJoin | SuperTransform
    | UnknownNode

  /** The annotation converters. */
  datatype AnnotationKind =
    | AddColumn | ChangeColumnType | DuplicateColumn | FilterOperation | KeepOnlyColumns
    | QuickCalcColumn | Remap | RemoveColumns | RenameColumn
    | UnknownAnnotation

  /** `VersionMappingRegistory`, in registration order. */
  const NodeRegistry: seq<(string, NodeKind)> := [
    (".v1.LoadSql", LoadSql),
    (".v2019_3_1.LoadSqlProxy", LoadSqlProxy),
    (".v1.LoadCsv", LoadCsv),
    (".v1.LoadCsvInputUnion", LoadCsvInputUnion),
    (".v1.LoadExcel", LoadExcel),
    (".v1.Container", Container),
    (".v1.WriteToHyper", WriteToHyper),
    (".v2018_2_3.SuperAggregate", SuperAggregate),
    (".v2018_2_3.SuperJoin", SuperJoin),
    (".v2018_2_3.SuperTransform", SuperTransform),
    ("unknown", UnknownNode)]

  /** `AnnotationVersionMappingRegistory`, in registration order. */
  const AnnotationRegistry: seq<(string, AnnotationKind)> := [
    (".v1.AddColumn", AddColumn),
    (".v1.ChangeColumnType", ChangeColumnType),
    (".v2019_2_3.DuplicateColumn", DuplicateColumn),
    (".v1.FilterOperation", FilterOperation),
    (".v2019_2_2.KeepOnlyColumns", KeepOnlyColumns),
    (".v2018_3_3.QuickCalcColumn", QuickCalcColumn),
    (".v2019_1_4.Remap", Remap),
    (".v1.RemoveColumns", RemoveColumns),
    (".v1.RenameColumn", RenameColumn),
    ("unknown", UnknownAnnotation)]

  /** A registry is a dictionary: no tag is registered twice. */
  predicate DistinctKeys<K>(reg: seq<(string, K)>)
  {
    forall i, j :: 0 <= i < j < |reg| ==> reg[i].0 != reg[j].0
  }

  predicate Registered<K>(reg: seq<(string, K)>, tag: string)
  {
    exists i :: 0 <= i < |reg| && reg[i].0 == tag
  }

  function NotFound(tag: string): string
  {
    tag + "は見つかりませんでした。"
  }

  /** `by_type`: the converter registered under exactly `tag`; the recoverable error otherwise. */
  function ByType<K>(reg: seq<(string, K)>, tag: string): (r: Result<K>)
    ensures r.Ok? <==> Registered(reg, tag)
    ensures r.Ok? ==> exists i :: 0 <= i < |reg| && reg[i] == (tag, r.value)
    ensures r.Err? ==> r == Err(NotRecognised(NotFound(tag)))
    decreases |reg|
  {
    if reg == [] then Err(NotRecognised(NotFound(tag)))
    else if reg[0].0 == tag then Ok(reg[0].1)
    else
      var r := ByType(reg[1..], tag);
      assert forall i :: 0 <= i < |reg| - 1 ==> reg[1..][i] == reg[i + 1];
      r
  }

  /** The converters of the registered tags ending with `suffix`, in registration order. */
  function Candidates<K>(reg: seq<(string, K)>, suffix: string): (r: seq<K>)
    ensures |r| <= |reg|
    decreases |reg|
  {
    if reg == [] then []
    else
      var last := reg[|reg| - 1];
      Candidates(reg[..|reg| - 1], suffix) + if EndsWith(last.0, suffix) then [last.1] else []
  }

  /** `find_all_versions`: the loop collecting every converter whose tag ends with the tag's last piece. */
  method FindAllVersions<K>(reg: seq<(string, K)>, tag: string) returns (r: Result<seq<K>>)
    ensures r.Ok? ==> r.value == Candidates(reg, LastPiece(tag, '.')) && r.value != []
    ensures r.Err? ==> Candidates(reg, LastPiece(tag, '.')) == [] && r == Err(NotRecognised(NotFound(tag)))
  {
    var suffix := LastPiece(tag, '.');
    var res: seq<K> := [];
    for i := 0 to |reg|
      invariant res == Candidates(reg[..i], suffix)
    {
      assert reg[..i + 1][..i] == reg[..i];
      if EndsWith(reg[i].0, suffix) {
        res := res + [reg[i].1];
      }
    }
    assert reg[..|reg|] == reg;
    if |res| != 0 {
      return Ok(res);
    }
    r := Err(NotRecognised(NotFound(tag)));
  }

  /** `get_unknown`: the converter registered under `unknown`. */
  function GetUnknown<K>(reg: seq<(string, K)>): (r: K)
    requires Registered(reg, "unknown")
    ensures exists i :: 0 <= i < |reg| && reg[i] == ("unknown", r)
  {
    ByType(reg, "unknown").value
  }

  /** The converter a lookup settles on: exact tag, else the last candidate, else `unknown`. */
  function Resolve<K>(reg: seq<(string, K)>, tag: string): K
    requires Registered(reg, "unknown")
  {
    match ByType(reg, tag)
    case Ok(k) => k
    case Err(_) =>
      var candidates := Candidates(reg, LastPiece(tag, '.'));
      if candidates != [] then candidates[|candidates| - 1] else GetUnknown(reg)
  }

  /** `get_converter_by_type`: the exception-driven fallback chain; it never fails. */
  method GetConverterByType<K>(reg: seq<(string, K)>, tag: string) returns (r: K)
    requires Registered(reg, "unknown")
    ensures r == Resolve(reg, tag)
  {
    var exact := ByType(reg, tag);
    if exact.Ok? {
      return exact.value;
    }
    var versions := FindAllVersions(reg, tag);
    if versions.Ok? {
      var all := versions.value;
      return all[|all| - 1];
    }
    r := GetUnknown(reg);
  }

  /** A converter is a candidate exactly when some registered tag ending with the suffix names it. */
  lemma {:induction false} CandidatesMembers<K>(reg: seq<(string, K)>, suffix: string, k: K)
    ensures k in Candidates(reg, suffix) <==> exists i :: 0 <= i < |reg| && reg[i].1 == k && EndsWith(reg[i].0, suffix)
    decreases |reg|
  {
    if reg != [] {
      var init := reg[..|reg| - 1];
      CandidatesMembers(init, suffix, k);
      assert forall i :: 0 <= i < |init| ==> init[i] == reg[i];
    }
  }

  /** The last candidate comes from a tag ending with the suffix after which no registered tag ends with it. */
  lemma {:induction false} LastCandidate<K>(reg: seq<(string, K)>, suffix: string)
    requires Candidates(reg, suffix) != []
    ensures var c := Candidates(reg, suffix);
      exists i :: 0 <= i < |reg| && reg[i].1 == c[|c| - 1] && EndsWith(reg[i].0, suffix)
        && forall j :: i < j < |reg| ==> !EndsWith(reg[j].0, suffix)
    decreases |reg|
  {
    var last := reg[|reg| - 1];
    var init := reg[..|reg| - 1];
    if !EndsWith(last.0, suffix) {
      LastCandidate(init, suffix);
      var c := Candidates(init, suffix);
      var i :| 0 <= i < |init| && init[i].1 == c[|c| - 1] && EndsWith(init[i].0, suffix)
        && forall j :: i < j < |init| ==> !EndsWith(init[j].0, suffix);
      assert reg[i] == init[i];
      assert forall j :: i < j < |reg| - 1 ==> reg[j] == init[j];
    }
  }

  /** The three outcomes of a lookup, in their order of precedence. */
  lemma ResolveCases<K>(reg: seq<(string, K)>, tag: string)
    requires Registered(reg, "unknown") && DistinctKeys(reg)
    ensures forall i :: 0 <= i < |reg| && reg[i].0 == tag ==> Resolve(reg, tag) == reg[i].1
    ensures !Registered(reg, tag) && Candidates(reg, LastPiece(tag, '.')) != [] ==>
      exists i :: 0 <= i < |reg| && Resolve(reg, tag) == reg[i].1 && EndsWith(reg[i].0, LastPiece(tag, '.'))
        && forall j :: i < j < |reg| ==> !EndsWith(reg[j].0, LastPiece(tag, '.'))
    ensures !Registered(reg, tag) && Candidates(reg, LastPiece(tag, '.')) == [] ==>
      Resolve(reg, tag) == GetUnknown(reg)
  {
    if Registered(reg, tag) {
      var k := ByType(reg, tag).value;
      var i :| 0 <= i < |reg| && reg[i] == (tag, k);
      forall j | 0 <= j < |reg| && reg[j].0 == tag ensures Resolve(reg, tag) == reg[j].1 {
        assert i == j;
      }
    } else if Candidates(reg, LastPiece(tag, '.')) != [] {
      LastCandidate(reg, LastPiece(tag, '.'));
    }
  }

  /** The registries as written: distinct tags, `unknown` registered. */
  lemma RegistriesWellFormed()
    ensures DistinctKeys(NodeRegistry) && Registered(NodeRegistry, "unknown")
    ensures DistinctKeys(AnnotationRegistry) && Registered(AnnotationRegistry, "unknown")
  {
    assert NodeRegistry[10].0 == "unknown";
    assert AnnotationRegistry[9].0 == "unknown";
  }

  /** The step converter for a `nodeType` tag. */
  function NodeConverter(tag: string): (r: NodeKind)
  {
    RegistriesWellFormed();
    Resolve(NodeRegistry, tag)
  }

  /** The annotation converter for an annotation's `nodeType` tag. */
  function AnnotationConverter(tag: string): (r: AnnotationKind)
  {
    RegistriesWellFormed();
    Resolve(AnnotationRegistry, tag)
  }

  /** The last piece of `p + sep + t` is `t` when `t` holds no separator. */
  lemma LastPieceAfter(s: string, sep: char, t: string)
    requires |t| < |s| && s[|s| - |t| - 1] == sep && s[|s| - |t|..] == t && sep !in t
    ensures LastPiece(s, sep) == t
  {
    var lp := LastPiece(s, sep);
    LastPieceIsTail(s, sep);
    if |lp| < |t| {
      assert false;
    } else if |lp| > |t| {
      assert false;
    }
    assert lp == s[|s| - |t|..];
  }

  /** When `reg[i]` is the last registered tag ending with `suffix`, its converter is the last candidate. */
  lemma {:induction false} LastCandidateIs<K>(reg: seq<(string, K)>, suffix: string, i: nat)
    requires i < |reg| && EndsWith(reg[i].0, suffix)
    requires forall j :: i < j < |reg| ==> !EndsWith(reg[j].0, suffix)
    ensures var c := Candidates(reg, suffix); c != [] && c[|c| - 1] == reg[i].1
    decreases |reg|
  {
    if i < |reg| - 1 {
      var init := reg[..|reg| - 1];
      assert forall j :: 0 <= j < |init| ==> init[j] == reg[j];
      LastCandidateIs(init, suffix, i);
    }
  }

  /** A tag that is not registered, and whose last piece ends no registered tag after `reg[i]`'s, resolves to `reg[i]`'s converter. */
  lemma ResolvesTo<K>(reg: seq<(string, K)>, tag: string, i: nat)
    requires Registered(reg, "unknown") && !Registered(reg, tag)
    requires i < |reg| && EndsWith(reg[i].0, LastPiece(tag, '.'))
    requires forall j :: i < j < |reg| ==> !EndsWith(reg[j].0, LastPiece(tag, '.'))
    ensures Resolve(reg, tag) == reg[i].1
  {
    LastCandidateIs(reg, LastPiece(tag, '.'), i);
  }

  /** A tag that is not registered and whose last piece ends no registered tag resolves to `unknown`. */
  lemma ResolvesToUnknown<K>(reg: seq<(string, K)>, tag: string)
    requires Registered(reg, "unknown") && !Registered(reg, tag)
    requires forall j :: 0 <= j < |reg| ==> !EndsWith(reg[j].0, LastPiece(tag, '.'))
    ensures Resolve(reg, tag) == GetUnknown(reg)
  {
    var c := Candidates(reg, LastPiece(tag, '.'));
    if c != [] {
      CandidatesMembers(reg, LastPiece(tag, '.'), c[0]);
    }
  }

  /** The `k`-th character from the end decides that `s` does not end with `suffix`. */
  lemma CharDiffers(s: string, suffix: string, k: nat)
    requires 1 <= k <= |suffix| && k <= |s| && s[|s| - k] != suffix[|suffix| - k]
    ensures !EndsWith(s, suffix)
  {
    if EndsWith(s, suffix) {
      assert false;
    }
  }

  /** `.v2020_1_1.SuperJoin` is no registered step tag. */
  lemma OtherVersionUnregistered()
    ensures !Registered(NodeRegistry, ".v2020_1_1.SuperJoin")
  {
    var tag := ".v2020_1_1.SuperJoin";
    forall i | 0 <= i < |NodeRegistry| ensures NodeRegistry[i].0 != tag {
      assert |NodeRegistry[i].0| != |tag| || NodeRegistry[i].0[4] != tag[4];
    }
  }

  /** SuperJoin's tag is the last one ending with `SuperJoin`. */
  lemma SuperJoinLastEnding()
    ensures EndsWith(NodeRegistry[8].0, "SuperJoin")
    ensures forall j :: 8 < j < |NodeRegistry| ==> !EndsWith(NodeRegistry[j].0, "SuperJoin")
  {
    CharDiffers(NodeRegistry[9].0, "SuperJoin", 1);
    CharDiffers(NodeRegistry[10].0, "SuperJoin", 2);
  }

  /** Another version of a registered step finds it. */
  lemma OtherVersionFound()
    ensures NodeConverter(".v2020_1_1.SuperJoin") == SuperJoin
  {
    RegistriesWellFormed();
    LastPieceAfter(".v2020_1_1.SuperJoin", '.', "SuperJoin");
    OtherVersionUnregistered();
    SuperJoinLastEnding();
    ResolvesTo(NodeRegistry, ".v2020_1_1.SuperJoin", 8);
  }

  /** `.vX.Sql` is no registered step tag. */
  lemma ShortSuffixUnregistered()
    ensures !Registered(NodeRegistry, ".vX.Sql")
  {
    var tag := ".vX.Sql";
    forall i | 0 <= i < |NodeRegistry| ensures NodeRegistry[i].0 != tag {
      assert |NodeRegistry[i].0| != |tag| || NodeRegistry[i].0[0] != tag[0];
    }
  }

  /** LoadSql's tag is the only one ending with `Sql`. */
  lemma SqlOnlyEnding()
    ensures EndsWith(NodeRegistry[0].0, "Sql")
    ensures forall j :: 0 < j < |NodeRegistry| ==> !EndsWith(NodeRegistry[j].0, "Sql")
  {
    forall j | 0 < j < |NodeRegistry| ensures !EndsWith(NodeRegistry[j].0, "Sql") {
      if j == 4 {
        CharDiffers(NodeRegistry[4].0, "Sql", 2);
      } else {
        CharDiffers(NodeRegistry[j].0, "Sql", 1);
      }
    }
  }

  /** Plain `endswith`: the last piece `Sql` ends the tag of LoadSql, so a `.vX.Sql` step is read as one. */
  lemma ShortSuffixFound()
    ensures NodeConverter(".vX.Sql") == LoadSql
  {
    RegistriesWellFormed();
    LastPieceAfter(".vX.Sql", '.', "Sql");
    ShortSuffixUnregistered();
    SqlOnlyEnding();
    ResolvesTo(NodeRegistry, ".vX.Sql", 0);
  }

  /** `.v1.Foo` is no registered step tag, and no registered tag ends with `Foo`. */
  lemma FooUnmatched()
    ensures !Registered(NodeRegistry, ".v1.Foo")
    ensures forall j :: 0 <= j < |NodeRegistry| ==> !EndsWith(NodeRegistry[j].0, "Foo")
  {
    var tag := ".v1.Foo";
    forall i | 0 <= i < |NodeRegistry| ensures NodeRegistry[i].0 != tag {
      assert |NodeRegistry[i].0| != |tag| || NodeRegistry[i].0[4] != tag[4];
    }
    forall j | 0 <= j < |NodeRegistry| ensures !EndsWith(NodeRegistry[j].0, "Foo") {
      CharDiffers(NodeRegistry[j].0, "Foo", 1);
    }
  }

  /** A tag unlike any registered one gets the unknown converter. */
  lemma UnmatchedIsUnknown()
    ensures NodeConverter(".v1.Foo") == UnknownNode
  {
    RegistriesWellFormed();
    LastPieceAfter(".v1.Foo", '.', "Foo");
    FooUnmatched();
    ResolvesToUnknown(NodeRegistry, ".v1.Foo");
  }

  /** `.v2.Column` is no registered annotation tag. */
  lemma ColumnTagUnregistered()
    ensures !Registered(AnnotationRegistry, ".v2.Column")
  {
    var tag := ".v2.Column";
    forall i | 0 <= i < |AnnotationRegistry| ensures AnnotationRegistry[i].0 != tag {
      assert |AnnotationRegistry[i].0| != |tag|;
    }
  }

  /** RenameColumn's tag is the last one ending with `Column`. */
  lemma RenameColumnLastEnding()
    ensures EndsWith(AnnotationRegistry[8].0, "Column")
    ensures forall j :: 8 < j < |AnnotationRegistry| ==> !EndsWith(AnnotationRegistry[j].0, "Column")
  {
    CharDiffers(AnnotationRegistry[9].0, "Column", 2);
  }

  /** Among several annotations whose tags end with the piece, the last registered wins. */
  lemma LastRegisteredWins()
    ensures AnnotationConverter(".v2.Column") == RenameColumn
  {
    RegistriesWellFormed();
    LastPieceAfter(".v2.Column", '.', "Column");
    ColumnTagUnregistered();
    RenameColumnLastEnding();
    ResolvesTo(AnnotationRegistry, ".v2.Column", 8);
  }
}
