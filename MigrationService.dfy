/**
  The scaffolding pass that turns the fields of an enum into front-end
  components of one tab and columns of the `dbo.Movimento` table: which
  fields are taken, which group each goes into, the `Ordem` number it gets
  in that group, and the migration that adds the new columns.

  The reflected enum fields are a list of records, and the database is a
  record of pure functions giving its answers as they stood before the pass.
  A component saved earlier in the same pass is visible to the later
  existence queries, since they run inside the same transaction.
*/
module MigrationService {
  import opened Wrappers
  import Enums
  import MigrationGenerator

  /** A group of fields of a tab; the name column can be NULL. */
  datatype FieldGroup = FieldGroup(id: int, name: Option<string>)

  datatype GroupError = DatesGroupMissing

  const AnnotationTabKey := "ANOTACAO"
  const DatesGroupName := "Datas"
  const MovementTable := "dbo.Movimento"

  // ---------------------------------------------------------------------------
  // Target group

  predicate NoGroupNamed(groups: seq<FieldGroup>, name: string)
  {
    forall i :: 0 <= i < |groups| ==> groups[i].name != Some(name)
  }

  /** The first group with the given name, if any. */
  function FirstNamed(groups: seq<FieldGroup>, name: string): (r: Option<FieldGroup>)
    ensures r.None? <==> NoGroupNamed(groups, name)
    ensures r.Some? ==> exists i :: (0 <= i < |groups| && groups[i] == r.value
      && r.value.name == Some(name) && NoGroupNamed(groups[..i], name))
  {
    if groups == [] then None
    else if groups[0].name == Some(name) then
      assert NoGroupNamed(groups[..0], name);
      Some(groups[0])
    else
      var r := FirstNamed(groups[1..], name);
      if r.Some? then
        ghost var i :| 0 <= i < |groups[1..]| && groups[1..][i] == r.value
          && r.value.name == Some(name) && NoGroupNamed(groups[1..][..i], name);
        assert groups[..i + 1] == [groups[0]] + groups[1..][..i];
        assert groups[i + 1] == r.value;
        r
      else
        r
  }

  /**
    The group a new component goes into: the group chosen by the user,
    except that a date on the annotations tab goes into the first group
    named "Datas", and without one the pass fails.
  */
  function GroupToBeInserted(initial: FieldGroup, all: seq<FieldGroup>, componentType: Enums.ComponentType,
                             tabKey: string): (r: Result<FieldGroup, GroupError>)
    ensures !(tabKey == AnnotationTabKey && componentType == Enums.DateTime) ==> r == Success(initial)
    ensures tabKey == AnnotationTabKey && componentType == Enums.DateTime ==>
      && (r.Failure? <==> NoGroupNamed(all, DatesGroupName))
      && (r.Success? ==> exists i :: (0 <= i < |all| && all[i] == r.value
            && r.value.name == Some(DatesGroupName) && NoGroupNamed(all[..i], DatesGroupName)))
  {
    if tabKey == AnnotationTabKey && componentType == Enums.DateTime then
      match FirstNamed(all, DatesGroupName)
      case Some(g) => Success(g)
      case None => Failure(DatesGroupMissing)
    else
      Success(initial)
  }

  // ---------------------------------------------------------------------------
  // Reference model

  predicate IsUpper(c: char)
  {
    'A' <= c <= 'Z'
  }

  /** Lower-casing of one character, for the ASCII letters. */
  function ToLowerInvariant(c: char): (r: char)
    ensures !IsUpper(r)
    ensures IsUpper(c) ==> r as int == c as int + 32
    ensures !IsUpper(c) ==> r == c
  {
    if IsUpper(c) then (c as int - 'A' as int + 'a' as int) as char else c
  }

  /** The model property a field is bound to: its name with the first character lower-cased. */
  function ReferenceModel(name: string): (r: string)
    requires |name| > 0
    ensures |r| == |name| && r[1..] == name[1..]
    ensures !IsUpper(r[0])
    ensures IsUpper(name[0]) ==> r[0] as int == name[0] as int + 32
    ensures !IsUpper(name[0]) ==> r == name
  {
    [ToLowerInvariant(name[0])] + name[1..]
  }

  lemma ReferenceModelIdempotent(name: string)
    requires |name| > 0
    ensures ReferenceModel(ReferenceModel(name)) == ReferenceModel(name)
  {
  }

  /** Two names share a reference model exactly when they differ at most in the case of the first letter. */
  lemma SameReferenceModel(a: string, b: string)
    requires |a| > 0 && |b| > 0
    ensures ReferenceModel(a) == ReferenceModel(b) <==>
      a[1..] == b[1..] && ToLowerInvariant(a[0]) == ToLowerInvariant(b[0])
  {
    var ra, rb := ReferenceModel(a), ReferenceModel(b);
    if ra == rb {
      assert ra[0] == rb[0];
      assert ra[1..] == rb[1..];
    }
    if a[1..] == b[1..] && ToLowerInvariant(a[0]) == ToLowerInvariant(b[0]) {
      assert ra == [ToLowerInvariant(a[0])] + a[1..];
    }
  }

  // ---------------------------------------------------------------------------
  // Which fields are taken

  /** A field name: C# identifiers are never empty. */
  type Identifier = s: string | |s| > 0 witness "A"

  /**
    A field of the scaffolded enum: its name, the text of its `Description`
    attribute and the value of its `GetType` attribute, each attribute
    possibly absent.
  */
  datatype EnumField = EnumField(name: Identifier, description: Option<string>,
                                 componentType: Option<Enums.ComponentType>)

  /**
    The database as the pass finds it: whether a component with a reference
    model exists in the window, whether `dbo.Movimento` has a column, and
    the largest `Ordem` in a group (0 for an empty group).
  */
  datatype Repository = Repository(componentExists: string -> bool, columnExists: string -> bool,
                                   maxOrder: int -> int)

  /** Both attributes present, and neither a component nor a column of that name in the database. */
  predicate Eligible(f: EnumField, repo: Repository)
  {
    && f.description.Some? && f.componentType.Some?
    && !repo.componentExists(ReferenceModel(f.name))
    && !repo.columnExists(f.name)
  }

  /** Some field of `kept` already has this reference model. */
  predicate Claimed(kept: seq<EnumField>, referenceModel: string)
  {
    exists k :: 0 <= k < |kept| && ReferenceModel(kept[k].name) == referenceModel
  }

  lemma ClaimedGrows(p: seq<EnumField>, q: seq<EnumField>)
    ensures forall x :: Claimed(p, x) ==> Claimed(p + q, x)
  {
    forall x | Claimed(p, x)
      ensures Claimed(p + q, x)
    {
      var k :| 0 <= k < |p| && ReferenceModel(p[k].name) == x;
      assert (p + q)[k] == p[k];
    }
  }

  /**
    The fields the pass turns into components, in field order: the eligible
    ones, less any whose reference model a field before it already took.
  */
  function Kept(fields: seq<EnumField>, repo: Repository): (r: seq<EnumField>)
  {
    if fields == [] then []
    else
      var p := Kept(fields[..|fields| - 1], repo);
      var f := fields[|fields| - 1];
      if Eligible(f, repo) && !Claimed(p, ReferenceModel(f.name)) then p + [f] else p
  }

  /** Every kept field has both attributes and is in neither the components nor the columns. */
  lemma {:induction false} KeptEligible(fields: seq<EnumField>, repo: Repository)
    ensures forall k :: 0 <= k < |Kept(fields, repo)| ==> Eligible(Kept(fields, repo)[k], repo)
  {
    if fields != [] {
      KeptEligible(fields[..|fields| - 1], repo);
    }
  }

  /**
    Every eligible field is kept, or an earlier kept field has its reference
    model: among the fields kept up to its own position, one has it.
  */
  lemma {:induction false} KeptCovers(fields: seq<EnumField>, repo: Repository)
    ensures forall i :: 0 <= i < |fields| && Eligible(fields[i], repo) ==>
      Claimed(Kept(fields[..i + 1], repo), ReferenceModel(fields[i].name))
    ensures forall f :: f in fields && Eligible(f, repo) ==> Claimed(Kept(fields, repo), ReferenceModel(f.name))
  {
    forall i | 0 <= i < |fields| && Eligible(fields[i], repo)
      ensures Claimed(Kept(fields[..i + 1], repo), ReferenceModel(fields[i].name))
    {
      var p := Kept(fields[..i], repo);
      KeptStep(fields, repo, i);
      if !Claimed(p, ReferenceModel(fields[i].name)) {
        assert (p + [fields[i]])[|p|] == fields[i];
      }
    }
    KeptCoversAll(fields, repo);
  }

  lemma {:induction false} KeptCoversAll(fields: seq<EnumField>, repo: Repository)
    ensures forall f :: f in fields && Eligible(f, repo) ==> Claimed(Kept(fields, repo), ReferenceModel(f.name))
  {
    if fields != [] {
      var init := fields[..|fields| - 1];
      var p := Kept(init, repo);
      var last := fields[|fields| - 1];
      KeptCoversAll(init, repo);
      ClaimedGrows(p, [last]);
      assert forall f :: f in fields ==> f in init || f == last;
      if Eligible(last, repo) && !Claimed(p, ReferenceModel(last.name)) {
        assert (p + [last])[|p|] == last;
      }
    }
  }

  predicate DistinctModels(kept: seq<EnumField>)
  {
    forall i, j :: 0 <= i < j < |kept| ==> ReferenceModel(kept[i].name) != ReferenceModel(kept[j].name)
  }

  /** No two kept fields share a reference model, so no two saved components do. */
  lemma {:induction false} KeptDistinct(fields: seq<EnumField>, repo: Repository)
    ensures DistinctModels(Kept(fields, repo))
  {
    if fields != [] {
      var p := Kept(fields[..|fields| - 1], repo);
      var f := fields[|fields| - 1];
      KeptDistinct(fields[..|fields| - 1], repo);
      if Eligible(f, repo) && !Claimed(p, ReferenceModel(f.name)) {
        var r := p + [f];
        forall i, j | 0 <= i < j < |r|
          ensures ReferenceModel(r[i].name) != ReferenceModel(r[j].name)
        {
          assert r[i] == p[i];
          if j == |p| {
            assert r[j] == f;
            assert !(0 <= i < |p| && ReferenceModel(p[i].name) == ReferenceModel(f.name));
          } else {
            assert r[j] == p[j];
          }
        }
        assert Kept(fields, repo) == r;
      } else {
        assert Kept(fields, repo) == p;
      }
    }
  }

  /** One more field: it is appended exactly when eligible and its reference model is unclaimed. */
  lemma KeptStep(fields: seq<EnumField>, repo: Repository, i: nat)
    requires i < |fields|
    ensures var p := Kept(fields[..i], repo);
      Kept(fields[..i + 1], repo) ==
        if Eligible(fields[i], repo) && !Claimed(p, ReferenceModel(fields[i].name)) then p + [fields[i]] else p
  {
    assert fields[..i + 1][..i] == fields[..i];
  }

  lemma {:induction false} KeptPrefix(fields: seq<EnumField>, repo: Repository, i: nat)
    requires i <= |fields|
    ensures Kept(fields[..i], repo) <= Kept(fields, repo)
    decreases |fields|
  {
    if i < |fields| {
      var init := fields[..|fields| - 1];
      KeptPrefix(init, repo, i);
      assert init[..i] == fields[..i];
    } else {
      assert fields[..i] == fields;
    }
  }

  // ---------------------------------------------------------------------------
  // Numbering

  /** A component row as saved; Nome, Descricao, Aria and Help all hold the description. */
  datatype ComponentRow = ComponentRow(description: string, order: int, referenceModel: string,
                                       tab: int, groupId: int, componentType: Enums.ComponentType)

  /** The number of rows in group g. */
  function Count(rows: seq<ComponentRow>, g: int): (r: nat)
    ensures r <= |rows|
    ensures r == 0 <== forall k :: 0 <= k < |rows| ==> rows[k].groupId != g
  {
    if rows == [] then 0
    else Count(rows[..|rows| - 1], g) + (if rows[|rows| - 1].groupId == g then 1 else 0)
  }

  /**
    Every row's `Ordem` is the group's maximum plus its rank among the rows
    of its group so far.
  */
  predicate Numbered(rows: seq<ComponentRow>, maxOrder: int -> int)
  {
    rows == [] ||
      var last := rows[|rows| - 1];
      && Numbered(rows[..|rows| - 1], maxOrder)
      && last.order == maxOrder(last.groupId) + Count(rows, last.groupId)
  }

  /** The `Ordem` values of group g, in row order. */
  function OrdersIn(rows: seq<ComponentRow>, g: int): seq<int>
  {
    if rows == [] then []
    else OrdersIn(rows[..|rows| - 1], g) + (if rows[|rows| - 1].groupId == g then [rows[|rows| - 1].order] else [])
  }

  function Consecutive(from: int, n: nat): (r: seq<int>)
    ensures |r| == n && forall j :: 0 <= j < n ==> r[j] == from + j
  {
    seq(n, j => from + j)
  }

  /** The numbers given in one group run max+1, max+2, ... without gaps or repeats. */
  lemma {:induction false} OrdersConsecutive(rows: seq<ComponentRow>, maxOrder: int -> int, g: int)
    requires Numbered(rows, maxOrder)
    ensures OrdersIn(rows, g) == Consecutive(maxOrder(g) + 1, Count(rows, g))
  {
    if rows != [] {
      var n := |rows| - 1;
      var init := rows[..n];
      OrdersConsecutive(init, maxOrder, g);
      if rows[n].groupId == g {
        var from, c := maxOrder(g) + 1, Count(rows, g);
        assert rows[n].order == from + c - 1;
        assert OrdersIn(rows, g) == Consecutive(from, c - 1) + [from + c - 1];
      }
    }
  }

  // ---------------------------------------------------------------------------
  // The pass

  /** A saved row for field f: its description, reference model, tab, group and type. */
  predicate Describes(row: ComponentRow, f: EnumField, tab: int, initial: FieldGroup, groups: seq<FieldGroup>,
                      tabKey: string)
  {
    && f.description.Some? && f.componentType.Some?
    && var target := GroupToBeInserted(initial, groups, f.componentType.value, tabKey);
    && target.Success?
    && row == ComponentRow(f.description.value, row.order, ReferenceModel(f.name), tab, target.value.id,
                           f.componentType.value)
  }

  /**
    The per-group counters: every group with a saved row has one, every
    counter belongs to a group with a saved row, and it holds the group's
    maximum plus the number of those rows.
  */
  ghost predicate Counters(groupSequence: map<int, int>, rows: seq<ComponentRow>, maxOrder: int -> int)
  {
    && (forall k :: 0 <= k < |rows| ==> rows[k].groupId in groupSequence)
    && (forall g :: g in groupSequence ==> Count(rows, g) > 0 && groupSequence[g] == maxOrder(g) + Count(rows, g))
  }

  /**
    The counters after one more row in group `id`: its counter is seeded
    with the group's maximum if the group has none yet, then incremented;
    the other counters stay as they are.
  */
  function Bumped(groupSequence: map<int, int>, id: int, maxOrder: int -> int): (next: map<int, int>)
    ensures next.Keys == groupSequence.Keys + {id}
    ensures next[id] == (if id in groupSequence then groupSequence[id] else maxOrder(id)) + 1
    ensures forall g :: g in groupSequence && g != id ==> next[g] == groupSequence[g]
  {
    var seeded := if id in groupSequence then groupSequence else groupSequence[id := maxOrder(id)];
    seeded[id := seeded[id] + 1]
  }

  /**
    Seeding the counter of a group on its first use and then incrementing it
    keeps the counters right for one more row in that group, and the row's
    number is the group's maximum plus its rank.
  */
  lemma CountersStep(groupSequence: map<int, int>, rows: seq<ComponentRow>, maxOrder: int -> int,
                     row: ComponentRow, next: map<int, int>)
    requires Counters(groupSequence, rows, maxOrder)
    requires next == Bumped(groupSequence, row.groupId, maxOrder)
    ensures Counters(next, rows + [row], maxOrder)
    ensures next[row.groupId] == maxOrder(row.groupId) + Count(rows + [row], row.groupId)
  {
    var id := row.groupId;
    var rows' := rows + [row];
    CountAppend(rows, row);
    if id !in groupSequence {
      assert Count(rows, id) == 0;
    }
    forall k | 0 <= k < |rows'|
      ensures rows'[k].groupId in next
    {
      if k < |rows| {
        assert rows'[k] == rows[k];
      }
    }
    forall g | g in next
      ensures Count(rows', g) > 0 && next[g] == maxOrder(g) + Count(rows', g)
    {
      if g != id {
        assert g in groupSequence && next[g] == groupSequence[g];
      }
    }
  }

  lemma CountAppend(rows: seq<ComponentRow>, row: ComponentRow)
    ensures forall g :: Count(rows + [row], g) == Count(rows, g) + (if row.groupId == g then 1 else 0)
  {
    assert (rows + [row])[..|rows|] == rows;
  }

  /** Everything the pass has built so far, for the fields `kept`. */
  ghost predicate Processed(kept: seq<EnumField>, rows: seq<ComponentRow>,
                            columns: seq<MigrationGenerator.ColumnDefinition>, groupSequence: map<int, int>,
                            repo: Repository, tab: int, initial: FieldGroup, groups: seq<FieldGroup>, tabKey: string)
  {
    && |columns| == |kept| == |rows|
    && (forall k :: 0 <= k < |rows| ==>
          && Describes(rows[k], kept[k], tab, initial, groups, tabKey)
          && columns[k] == MigrationGenerator.ColumnDefinition(kept[k].name, kept[k].componentType.value))
    && Numbered(rows, repo.maxOrder)
    && Counters(groupSequence, rows, repo.maxOrder)
  }

  /** Saving one more field with the next number of its group keeps everything in step. */
  lemma ProcessedStep(kept: seq<EnumField>, rows: seq<ComponentRow>,
                      columns: seq<MigrationGenerator.ColumnDefinition>, groupSequence: map<int, int>,
                      repo: Repository, tab: int, initial: FieldGroup, groups: seq<FieldGroup>, tabKey: string,
                      field: EnumField, target: FieldGroup, row: ComponentRow, next: map<int, int>)
    requires Processed(kept, rows, columns, groupSequence, repo, tab, initial, groups, tabKey)
    requires field.description.Some? && field.componentType.Some?
    requires GroupToBeInserted(initial, groups, field.componentType.value, tabKey) == Success(target)
    requires row == ComponentRow(field.description.value, row.order, ReferenceModel(field.name), tab, target.id,
                                 field.componentType.value)
    requires next == Bumped(groupSequence, row.groupId, repo.maxOrder) && row.order == next[row.groupId]
    ensures Processed(kept + [field], rows + [row],
                      columns + [MigrationGenerator.ColumnDefinition(field.name, field.componentType.value)],
                      next, repo, tab, initial, groups, tabKey)
  {
    CountersStep(groupSequence, rows, repo.maxOrder, row, next);
    NumberedStep(rows, repo.maxOrder, row);
    RowsStep(kept, rows, columns, tab, initial, groups, tabKey, field, row);
  }

  lemma NumberedStep(rows: seq<ComponentRow>, maxOrder: int -> int, row: ComponentRow)
    requires Numbered(rows, maxOrder)
    requires row.order == maxOrder(row.groupId) + Count(rows + [row], row.groupId)
    ensures Numbered(rows + [row], maxOrder)
  {
    assert (rows + [row])[..|rows|] == rows;
  }

  lemma RowsStep(kept: seq<EnumField>, rows: seq<ComponentRow>, columns: seq<MigrationGenerator.ColumnDefinition>,
                 tab: int, initial: FieldGroup, groups: seq<FieldGroup>, tabKey: string,
                 field: EnumField, row: ComponentRow)
    requires |columns| == |kept| == |rows|
    requires forall k :: 0 <= k < |rows| ==>
      && Describes(rows[k], kept[k], tab, initial, groups, tabKey)
      && columns[k] == MigrationGenerator.ColumnDefinition(kept[k].name, kept[k].componentType.value)
    requires Describes(row, field, tab, initial, groups, tabKey)
    ensures var rows', kept' := rows + [row], kept + [field];
      var columns' := columns + [MigrationGenerator.ColumnDefinition(field.name, field.componentType.value)];
      forall k :: 0 <= k < |rows'| ==>
        && Describes(rows'[k], kept'[k], tab, initial, groups, tabKey)
        && columns'[k] == MigrationGenerator.ColumnDefinition(kept'[k].name, kept'[k].componentType.value)
  {
    var rows', kept' := rows + [row], kept + [field];
    var columns' := columns + [MigrationGenerator.ColumnDefinition(field.name, field.componentType.value)];
    forall k | 0 <= k < |rows'|
      ensures Describes(rows'[k], kept'[k], tab, initial, groups, tabKey)
      ensures columns'[k] == MigrationGenerator.ColumnDefinition(kept'[k].name, kept'[k].componentType.value)
    {
      if k < |rows| {
        assert rows'[k] == rows[k] && kept'[k] == kept[k] && columns'[k] == columns[k];
      }
    }
  }

  /** A row with this reference model has been saved. */
  predicate SavedModel(rows: seq<ComponentRow>, referenceModel: string)
  {
    exists k :: 0 <= k < |rows| && rows[k].referenceModel == referenceModel
  }

  /**
    One more field, seen from the loop: it is kept exactly when it is
    eligible and no row saved so far has its reference model.
  */
  lemma KeepStep(fields: seq<EnumField>, repo: Repository, i: nat, rows: seq<ComponentRow>,
                 columns: seq<MigrationGenerator.ColumnDefinition>, groupSequence: map<int, int>,
                 tab: int, initial: FieldGroup, groups: seq<FieldGroup>, tabKey: string)
    requires i < |fields|
    requires Processed(Kept(fields[..i], repo), rows, columns, groupSequence, repo, tab, initial, groups, tabKey)
    ensures var kept := Kept(fields[..i], repo);
      Kept(fields[..i + 1], repo) ==
        if Eligible(fields[i], repo) && !SavedModel(rows, ReferenceModel(fields[i].name)) then kept + [fields[i]]
        else kept
  {
    var kept := Kept(fields[..i], repo);
    var rm := ReferenceModel(fields[i].name);
    KeptStep(fields, repo, i);
    if SavedModel(rows, rm) {
      var k :| 0 <= k < |rows| && rows[k].referenceModel == rm;
      assert ReferenceModel(kept[k].name) == rm;
    }
    if Claimed(kept, rm) {
      var k :| 0 <= k < |kept| && ReferenceModel(kept[k].name) == rm;
      assert rows[k].referenceModel == rm;
    }
  }

  /**
    The pass fails exactly when this holds: the annotations tab, no group
    named "Datas", and a date among the fields to be saved.
  */
  predicate DatesGroupNeeded(kept: seq<EnumField>, groups: seq<FieldGroup>, tabKey: string)
  {
    && tabKey == AnnotationTabKey && NoGroupNamed(groups, DatesGroupName)
    && exists k :: 0 <= k < |kept| && kept[k].componentType == Some(Enums.DateTime)
  }

  /** A kept date field whose group lookup fails makes the whole pass fail. */
  lemma FailingFieldKept(fields: seq<EnumField>, repo: Repository, i: nat, groups: seq<FieldGroup>, tabKey: string)
    requires i < |fields|
    requires fields[i].componentType == Some(Enums.DateTime)
    requires tabKey == AnnotationTabKey && NoGroupNamed(groups, DatesGroupName)
    requires Kept(fields[..i + 1], repo) == Kept(fields[..i], repo) + [fields[i]]
    ensures DatesGroupNeeded(Kept(fields, repo), groups, tabKey)
  {
    KeptPrefix(fields, repo, i + 1);
    var k := |Kept(fields[..i], repo)|;
    assert Kept(fields, repo)[k] == fields[i];
  }

  /** Once every kept field has its row, none of them failed its group lookup. */
  lemma ProcessedFieldsFoundGroups(kept: seq<EnumField>, rows: seq<ComponentRow>,
                                   columns: seq<MigrationGenerator.ColumnDefinition>, groupSequence: map<int, int>,
                                   repo: Repository, tab: int, initial: FieldGroup, groups: seq<FieldGroup>,
                                   tabKey: string)
    requires Processed(kept, rows, columns, groupSequence, repo, tab, initial, groups, tabKey)
    ensures !DatesGroupNeeded(kept, groups, tabKey)
  {
    if tabKey == AnnotationTabKey && NoGroupNamed(groups, DatesGroupName) {
      forall k | 0 <= k < |kept|
        ensures kept[k].componentType != Some(Enums.DateTime)
      {
        assert Describes(rows[k], kept[k], tab, initial, groups, tabKey);
      }
    }
  }

  /**
    The `Ordem` counter of group `id` (lines seeding it from the database on
    first use and then incrementing it): the updated counters and the new number.
  */
  method NextOrder(groupSequence: map<int, int>, id: int, repo: Repository)
    returns (next: map<int, int>, order: int)
    ensures next == Bumped(groupSequence, id, repo.maxOrder) && order == next[id]
  {
    next := groupSequence;
    if id !in next {
      next := next[id := repo.maxOrder(id)];
    }
    next := next[id := next[id] + 1];
    order := next[id];
  }

  /**
    What happens to a field that passed the checks: the target group is
    chosen, the column collected, the group's next `Ordem` drawn and the row
    saved. Fails, changing nothing, when the group lookup fails.
  */
  method SaveComponent(ghost kept: seq<EnumField>, field: EnumField, rows: seq<ComponentRow>,
                       columns: seq<MigrationGenerator.ColumnDefinition>, groupSequence: map<int, int>,
                       repo: Repository, tab: int, initial: FieldGroup, groups: seq<FieldGroup>, tabKey: string)
    returns (failed: Option<GroupError>, rows': seq<ComponentRow>, columns': seq<MigrationGenerator.ColumnDefinition>,
             groupSequence': map<int, int>)
    requires Processed(kept, rows, columns, groupSequence, repo, tab, initial, groups, tabKey)
    requires field.description.Some? && field.componentType.Some?
    ensures failed.Some? <==> GroupToBeInserted(initial, groups, field.componentType.value, tabKey).Failure?
    ensures failed.Some? ==> failed.value == DatesGroupMissing
    ensures failed.None? ==>
      && Processed(kept + [field], rows', columns', groupSequence', repo, tab, initial, groups, tabKey)
      && rows' == rows + [rows'[|rows|]]
      && columns' == columns + [MigrationGenerator.ColumnDefinition(field.name, field.componentType.value)]
  {
    var description := field.description.value;
    var componentType := field.componentType.value;
    var referenceModel := ReferenceModel(field.name);
    var target := GroupToBeInserted(initial, groups, componentType, tabKey);
    if target.Failure? {
      return Some(target.error), rows, columns, groupSequence;
    }
    var targetGroup := target.value;
    columns' := columns + [MigrationGenerator.ColumnDefinition(field.name, componentType)];
    var newSequence;
    groupSequence', newSequence := NextOrder(groupSequence, targetGroup.id, repo);
    var row := ComponentRow(description, newSequence, referenceModel, tab, targetGroup.id, componentType);
    ProcessedStep(kept, rows, columns, groupSequence, repo, tab, initial, groups, tabKey, field, targetGroup, row,
                  groupSequence');
    rows' := rows + [row];
    failed := None;
  }

  /** The rows saved and the columns collected by a pass that did not fail. */
  datatype Saved = Saved(rows: seq<ComponentRow>, columns: seq<MigrationGenerator.ColumnDefinition>)

  /**
    The loop over the enum fields for tab `tab` (whose key is `tabKey`) with
    the user's group `initial` among `groups`: skips the fields that lack an
    attribute or whose component or column exists, saves a row for each of
    the others with the next `Ordem` of its group and collects its column.
    Fails when a date field of the annotations tab finds no "Datas" group.
  */
  method SaveComponents(fields: seq<EnumField>, repo: Repository, tab: int, groups: seq<FieldGroup>,
                        initial: FieldGroup, tabKey: string)
    returns (r: Result<Saved, GroupError>)
    ensures r.Failure? <==> DatesGroupNeeded(Kept(fields, repo), groups, tabKey)
    ensures r.Failure? ==> r.error == DatesGroupMissing
    ensures r.Success? ==>
      var kept := Kept(fields, repo);
      && |r.value.columns| == |kept| == |r.value.rows|
      && (forall k :: 0 <= k < |kept| ==>
            && Describes(r.value.rows[k], kept[k], tab, initial, groups, tabKey)
            && r.value.columns[k] == MigrationGenerator.ColumnDefinition(kept[k].name, kept[k].componentType.value))
      && Numbered(r.value.rows, repo.maxOrder)
  {
    var groupSequence: map<int, int> := map[];
    var newColumns: seq<MigrationGenerator.ColumnDefinition> := [];
    var rows: seq<ComponentRow> := [];
    ghost var kept: seq<EnumField> := [];
    for i := 0 to |fields|
      invariant kept == Kept(fields[..i], repo)
      invariant Processed(kept, rows, newColumns, groupSequence, repo, tab, initial, groups, tabKey)
    {
      KeepStep(fields, repo, i, rows, newColumns, groupSequence, tab, initial, groups, tabKey);
      var field := fields[i];
      if field.description.None? || field.componentType.None? {
        continue;
      }
      var referenceModel := ReferenceModel(field.name);
      if repo.componentExists(referenceModel) || SavedModel(rows, referenceModel) {
        continue;
      }
      if repo.columnExists(field.name) {
        continue;
      }
      var failed, rows', columns', groupSequence' :=
        SaveComponent(kept, field, rows, newColumns, groupSequence, repo, tab, initial, groups, tabKey);
      if failed.Some? {
        FailingFieldKept(fields, repo, i, groups, tabKey);
        return Failure(failed.value);
      }
      rows, newColumns, groupSequence := rows', columns', groupSequence';
      kept := kept + [field];
    }
    assert kept == Kept(fields, repo) by {
      assert fields[..|fields|] == fields;
    }
    ProcessedFieldsFoundGroups(kept, rows, newColumns, groupSequence, repo, tab, initial, groups, tabKey);
    r := Success(Saved(rows, newColumns));
  }

  /** What a completed pass leaves behind: the saved rows, the new columns and the migration file. */
  datatype Outcome = Outcome(rows: seq<ComponentRow>, columns: seq<MigrationGenerator.ColumnDefinition>,
                             migration: Option<MigrationGenerator.MigrationFile>)

  /**
    The whole pass: the loop over the fields, then the migration for the
    collected columns of `dbo.Movimento`, generated only when there is at
    least one.
  */
  method ProcessComponents(fields: seq<EnumField>, repo: Repository, tab: int, groups: seq<FieldGroup>,
                           initial: FieldGroup, tabKey: string, timestamp: string)
    returns (r: Result<Outcome, GroupError>)
    ensures r.Failure? <==> DatesGroupNeeded(Kept(fields, repo), groups, tabKey)
    ensures r.Success? ==>
      && r.value.migration.Some? == (Kept(fields, repo) != [])
      && r.value.migration == MigrationGenerator.Migration(MovementTable, r.value.columns, timestamp)
    ensures r.Success? ==>
      var kept := Kept(fields, repo);
      && |r.value.columns| == |kept| == |r.value.rows|
      && (forall k :: 0 <= k < |kept| ==>
            && Describes(r.value.rows[k], kept[k], tab, initial, groups, tabKey)
            && r.value.columns[k] == MigrationGenerator.ColumnDefinition(kept[k].name, kept[k].componentType.value))
      && Numbered(r.value.rows, repo.maxOrder)
  {
    var saved := SaveComponents(fields, repo, tab, groups, initial, tabKey);
    if saved.Failure? {
      return Failure(saved.error);
    }
    var newColumns := saved.value.columns;
    var migration := None;
    if |newColumns| > 0 {
      migration := MigrationGenerator.GenerateAddColumnsMigration(MovementTable, newColumns, timestamp);
    }
    r := Success(Outcome(saved.value.rows, newColumns, migration));
  }
}
