/** Which metafield definitions an attribute schema implies (src/domain/attributes/definitions.ts). */
module Definitions {
  import opened Prelude
  import opened JsText

  datatype Owner = Product | ProductVariant

  datatype DataType = Text | Integer | Decimal | Boolean | SingleSelect | MultiSelect | Measurement | Reference | Date

  datatype Attribute = Attribute(id: string, name: string, key: string, perVariant: bool, dataType: DataType,
                                 unit: string,
                                 description: string, valueListId: Option<string>, storefront: bool)

  datatype ValueList = ValueList(id: string, codes: seq<string>)

  datatype Schema = Schema(attributes: seq<Attribute>, valueLists: seq<ValueList>)

  datatype Existing = Existing(owner: Owner, namespace: string, key: string, kind: string)

  datatype Draft = Draft(owner: Owner, namespace: string, key: string, name: string, description: string, kind: string,
                         choices: Option<seq<string>>, publicRead: bool)

  datatype Status = Create | Unchanged | Conflict | Managed | Skipped

  datatype Reason = NoField | NotAKey | StoreMenu | AlreadyUsed | LinkToRecord | NoOptions
                  | TypeCannotChange(held: string)

  datatype Row = Row(attributeId: string, name: string, owner: Owner, fullKey: string, status: Status,
                     kind: Option<string>,
                     existingKind: Option<string>, reason: Option<Reason>, owned: bool, draft: Option<Draft>)

  datatype Plan = Plan(rows: seq<Row>, foreign: seq<Existing>, counts: map<Status, nat>)

  /** Value lists by id, and definitions by identity. */
  type Lists = map<string, seq<string>>
  type Held = map<string, Existing>

  /** The Shopify type of a measurement in a unit, or a plain number for a unit Shopify has no type for. */
  type Measures = string -> string

  const KEY_NAMESPACE := "recharge"
  const MENU_KEY := "recharge.product_type_path"
  const MENU_KIND := "list.single_line_text_field"

  function OwnerOf(a: Attribute): Owner {
    if a.perVariant then ProductVariant else Product
  }

  function OwnerName(owner: Owner): string {
    if owner.Product? then "PRODUCT" else "PRODUCTVARIANT"
  }

  function Identity(owner: Owner, fullKey: string): string {
    OwnerName(owner) + "|" + fullKey
  }

  const MENU_IDENTITY := Identity(Product, MENU_KEY)

  /** The first dot, or the length when there is none. */
  function FirstDot(s: string): (k: nat)
    ensures k <= |s| && '.' !in s[..k] && (k < |s| ==> s[k] == '.')
  {
    if s == [] || s[0] == '.' then 0 else 1 + FirstDot(s[1..])
  }

  predicate KeyChars(s: string) {
    forall k :: 0 <= k < |s| ==>
      'a' <= s[k] <= 'z' || 'A' <= s[k] <= 'Z' || '0' <= s[k] <= '9' || s[k] == '_' || s[k] == '-'
  }

  /** Namespace and key, both of a bounded length, around one dot. */
  predicate IsKey(s: string) {
    var k := FirstDot(s);
    k < |s| && 3 <= k <= 255 && 3 <= |s| - k - 1 <= 64 && KeyChars(s[..k]) && KeyChars(s[k + 1..])
  }

  function Namespace(fullKey: string): string {
    fullKey[..FirstDot(fullKey)]
  }

  function Local(fullKey: string): string
    requires '.' in fullKey
  {
    fullKey[FirstDot(fullKey) + 1..]
  }

  /** For a key with a dot, joining undoes the split. */
  lemma SplitJoins(fullKey: string)
    requires '.' in fullKey
    ensures Namespace(fullKey) + "." + Local(fullKey) == fullKey
  {}

  function DefaultShopifyType(a: Attribute, measures: Measures): Option<string> {
    match a.dataType
    case Text => Some("single_line_text_field")
    case SingleSelect => Some("single_line_text_field")
    case MultiSelect => Some("list.single_line_text_field")
    case Integer => Some("number_integer")
    case Decimal => Some("number_decimal")
    case Boolean => Some("boolean")
    case Date => Some("date")
    case Measurement => Some(measures(a.unit))
    case Reference => None
  }

  predicate IsSelect(t: DataType) {
    t.SingleSelect? || t.MultiSelect?
  }

  /** What is held, by identity; the last of two with the same one. */
  function Have(existing: seq<Existing>): Held {
    if existing == [] then map[]
    else Have(existing[..|existing| - 1])[IdentityOf(existing[|existing| - 1]) := existing[|existing| - 1]]
  }

  function IdentityOf(e: Existing): string {
    Identity(e.owner, e.namespace + "." + e.key)
  }

  function ListsById(lists: seq<ValueList>): Lists {
    if lists == [] then map[] else ListsById(lists[..|lists| - 1])[lists[|lists| - 1].id := lists[|lists| - 1].codes]
  }

  function Codes(a: Attribute, lists: Lists): seq<string> {
    if a.valueListId.Some? && a.valueListId.value != "" && a.valueListId.value in lists
        then lists[a.valueListId.value] else []
  }

  function FullKey(a: Attribute): string {
    Trim(a.key)
  }

  function Id(a: Attribute): string {
    Identity(OwnerOf(a), FullKey(a))
  }

  function Blank(a: Attribute, status: Status): Row {
    Row(a.id, a.name, OwnerOf(a), FullKey(a), status, None, None, None, KEY_NAMESPACE + "." <= FullKey(a), None)
  }

  /** Why an attribute gets no definition of its own, if there is a reason. */
  function Refusal(a: Attribute, measures: Measures, lists: Lists, planned: set<string>): Option<Row> {
    var kind, row := DefaultShopifyType(a, measures), Blank(a, Skipped);
    if FullKey(a) == "" then Some(row.(reason := Some(NoField)))
    else if !IsKey(FullKey(a)) then Some(row.(reason := Some(NotAKey)))
    else if Id(a) == MENU_IDENTITY
        then Some(row.(status := Managed, reason := Some(StoreMenu), kind := Some(MENU_KIND)))
    else if Id(a) in planned then Some(row.(reason := Some(AlreadyUsed)))
    else if kind.None? then Some(row.(reason := Some(LinkToRecord)))
    else if IsSelect(a.dataType) && Codes(a, lists) == [] then Some(row.(reason := Some(NoOptions), kind := kind))
    else None
  }

  /** The row of a field Shopify holds already. */
  function HeldRow(a: Attribute, kind: Option<string>, held: string): Row {
    var row := Blank(a, Unchanged).(kind := kind, existingKind := Some(held));
    if Some(held) == kind then row else row.(status := Conflict, reason := Some(TypeCannotChange(held)))
  }

  function CreatedRow(a: Attribute, kind: string, lists: Lists): Row
    requires '.' in FullKey(a)
  {
    var choices := if IsSelect(a.dataType) then Some(Codes(a, lists)) else None;
    Blank(a, Create).(kind := Some(kind),
                      draft := Some(Draft(OwnerOf(a), Namespace(FullKey(a)), Local(FullKey(a)), a.name,
                          a.description, kind, choices, a.storefront)))
  }

  /** One attribute's row, given the identities planned before it. */
  function RowFor(a: Attribute, measures: Measures, lists: Lists, have: Held, planned: set<string>): Row {
    var kind, refused := DefaultShopifyType(a, measures), Refusal(a, measures, lists, planned);
    if refused.Some? then refused.value
    else if Id(a) in have then HeldRow(a, kind, have[Id(a)].kind)
    else CreatedRow(a, kind.value, lists)
  }

  /** The identities of the attributes whose keys are keys. */
  function Planned(attributes: seq<Attribute>): set<string> {
    if attributes == [] then {}
    else
      var a := attributes[|attributes| - 1];
      Planned(attributes[..|attributes| - 1]) + if IsKey(FullKey(a)) then {Id(a)} else {}
  }

  function Rows(attributes: seq<Attribute>, measures: Measures, lists: Lists, have: Held): (r: seq<Row>)
    ensures |r| == |attributes|
  {
    if attributes == [] then []
    else
      var before := attributes[..|attributes| - 1];
      Rows(before, measures, lists, have)
          + [RowFor(attributes[|attributes| - 1], measures, lists, have, Planned(before))]
  }

  /** Held but not mentioned by the plan, nor the menu's. */
  function Foreign(existing: seq<Existing>, planned: set<string>): seq<Existing> {
    if existing == [] then []
    else
      var last := existing[|existing| - 1];
      Foreign(existing[..|existing| - 1], planned)
      + if IdentityOf(last) !in planned && IdentityOf(last) != MENU_IDENTITY then [last] else []
  }

  function Count(rows: seq<Row>, status: Status): nat {
    if rows == [] then 0 else Count(rows[..|rows| - 1], status) + if rows[|rows| - 1].status == status then 1 else 0
  }

  function Counts(rows: seq<Row>): map<Status, nat> {
    map[Create := Count(rows, Create), Unchanged := Count(rows, Unchanged), Conflict := Count(rows, Conflict),
        Managed := Count(rows, Managed), Skipped := Count(rows, Skipped)]
  }

  function Planning(schema: Schema, measures: Measures, existing: seq<Existing>): Plan {
    var rows := Rows(schema.attributes, measures, ListsById(schema.valueLists), Have(existing));
    Plan(rows, Foreign(existing, Planned(schema.attributes)), Counts(rows))
  }

  method PlanDefinitions(schema: Schema, measures: Measures, existing: seq<Existing>) returns (plan: Plan)
    ensures plan == Planning(schema, measures, existing)
  {
    var have, lists := Have(existing), ListsById(schema.valueLists);
    var planned: set<string> := {};
    var rows: seq<Row> := [];
    for k := 0 to |schema.attributes|
      invariant planned == Planned(schema.attributes[..k])
      invariant rows == Rows(schema.attributes[..k], measures, lists, have)
    {
      var a := schema.attributes[k];
      assert schema.attributes[..k + 1][..k] == schema.attributes[..k];
      var row;
      row, planned := PlanOne(a, measures, lists, have, planned);
      rows := rows + [row];
    }
    assert schema.attributes[..|schema.attributes|] == schema.attributes;
    var counts := CountRows(rows);
    plan := Plan(rows, Foreign(existing, planned), counts);
  }

  method CountRows(rows: seq<Row>) returns (counts: map<Status, nat>)
    ensures counts == Counts(rows)
  {
    counts := map[Create := 0, Unchanged := 0, Conflict := 0, Managed := 0, Skipped := 0];
    for k := 0 to |rows|
      invariant counts == Counts(rows[..k])
    {
      var status := rows[k].status;
      assert rows[..k + 1][..k] == rows[..k];
      assert status.Create? || status.Unchanged? || status.Conflict? || status.Managed? || status.Skipped?;
      counts := counts[status := counts[status] + 1];
    }
    assert rows[..|rows|] == rows;
  }

  /** The body of the loop over the attributes. */
  method PlanOne(a: Attribute, measures: Measures, lists: Lists, have: Held, planned: set<string>)
    returns (row: Row, marked: set<string>)
    ensures row == RowFor(a, measures, lists, have, planned)
    ensures marked == planned + if IsKey(FullKey(a)) then {Id(a)} else {}
  {
    var fullKey, row0 := Trim(a.key), Blank(a, Skipped);
    if fullKey == "" {
      return row0.(reason := Some(NoField)), planned;
    }
    if !IsKey(fullKey) {
      return row0.(reason := Some(NotAKey)), planned;
    }
    var id := Identity(OwnerOf(a), fullKey);
    marked := planned + {id};
    if id == MENU_IDENTITY {
      row := row0.(status := Managed, reason := Some(StoreMenu), kind := Some(MENU_KIND));
    } else if id in planned {
      row := row0.(reason := Some(AlreadyUsed));
    } else {
      row := PlanNew(a, measures, lists, have, planned);
    }
  }

  /** An attribute whose field is a key nobody planned before. */
  method PlanNew(a: Attribute, measures: Measures, lists: Lists, have: Held, ghost planned: set<string>)
    returns (row: Row)
    requires FullKey(a) != "" && IsKey(FullKey(a)) && Id(a) != MENU_IDENTITY && Id(a) !in planned
    ensures row == RowFor(a, measures, lists, have, planned)
  {
    row := Blank(a, Skipped);
    var kind := DefaultShopifyType(a, measures);
    if kind.None? {
      return row.(reason := Some(LinkToRecord));
    }
    var choices := None;
    if IsSelect(a.dataType) {
      var items := Codes(a, lists);
      if items == [] {
        return row.(reason := Some(NoOptions), kind := kind);
      }
      choices := Some(items);
    }
    var id := Id(a);
    if id in have {
      var held := have[id].kind;
      row := row.(status := Unchanged, kind := kind, existingKind := Some(held));
      return if held == kind.value then row else row.(status := Conflict, reason := Some(TypeCannotChange(held)));
    }
    var dot := FirstDot(FullKey(a));
    var draft := Draft(OwnerOf(a), FullKey(a)[..dot], FullKey(a)[dot + 1..], a.name, a.description, kind.value,
        choices, a.storefront);
    row := row.(status := Create, kind := kind, draft := Some(draft));
  }

  /* What a row says. */

  /** A key is a namespace and a local part of these lengths around a dot. */
  lemma KeyIff(s: string)
    ensures IsKey(s) <==> exists a, b :: s == a + "." + b && IsPart(a, 255) && IsPart(b, 64)
  {
    if IsKey(s) {
      var k := FirstDot(s);
      assert s == s[..k] + "." + s[k + 1..] && IsPart(s[..k], 255) && IsPart(s[k + 1..], 64);
    }
    if a, b :| s == a + "." + b && IsPart(a, 255) && IsPart(b, 64) {
      OnlyDot(s, a, b);
    }
  }

  /** Letters, digits, underscores and hyphens: three of them at least, and no more than these. */
  predicate IsPart(s: string, most: nat) {
    3 <= |s| <= most && KeyChars(s)
  }

  lemma OnlyDot(s: string, a: string, b: string)
    requires s == a + "." + b && KeyChars(a)
    ensures FirstDot(s) == |a| && s[..|a|] == a && s[|a| + 1..] == b
  {
    assert s[|a|] == '.' && forall i :: 0 <= i < |a| ==> s[i] == a[i];
  }

  /** Two attributes are for one field when both are kept on products or both on variants, under one key. */
  lemma SameField(a: Attribute, b: Attribute)
    ensures Id(a) == Id(b) <==> a.perVariant == b.perVariant && Trim(a.key) == Trim(b.key)
  {
    var x, y := Id(a), Id(b);
    if a.perVariant == b.perVariant {
      var n := |OwnerName(OwnerOf(a))| + 1;
      assert x[n..] == FullKey(a) && y[n..] == FullKey(b);
    } else {
      assert x[7] != y[7];
    }
  }

  /** An attribute before it is for the same field. */
  predicate FieldTaken(attributes: seq<Attribute>, i: nat)
    requires i < |attributes|
  {
    exists j :: 0 <= j < i && attributes[j].perVariant == attributes[i].perVariant
                && Trim(attributes[j].key) == Trim(attributes[i].key)
  }

  lemma {:induction false} PlannedIff(attributes: seq<Attribute>, a: Attribute)
    requires IsKey(FullKey(a))
    ensures Id(a) in Planned(attributes) <==>
            exists j :: 0 <= j < |attributes| && attributes[j].perVariant == a.perVariant
                        && Trim(attributes[j].key) == Trim(a.key)
  {
    if attributes != [] {
      var n := |attributes| - 1;
      PlannedIff(attributes[..n], a);
      SameField(attributes[n], a);
      assert forall j :: 0 <= j < n ==> attributes[..n][j] == attributes[j];
    }
  }

  /** Why an attribute is skipped. */
  function WhySkipped(attributes: seq<Attribute>, lists: Lists, i: nat): Option<Reason>
    requires i < |attributes|
  {
    var a := attributes[i];
    if Trim(a.key) == "" then Some(NoField)
    else if !IsKey(Trim(a.key)) then Some(NotAKey)
    else if FieldTaken(attributes, i) then Some(AlreadyUsed)
    else if a.dataType.Reference? then Some(LinkToRecord)
    else if (a.dataType.SingleSelect? || a.dataType.MultiSelect?) && Codes(a, lists) == [] then Some(NoOptions)
    else None
  }

  predicate IsMenu(a: Attribute) {
    !a.perVariant && Trim(a.key) == MENU_KEY
  }

  lemma MenuIff(a: Attribute)
    ensures Id(a) == MENU_IDENTITY <==> IsMenu(a)
  {
    var menu := a.(perVariant := false, key := MENU_KEY);
    TrimmedStays(MENU_KEY);
    SameField(a, menu);
  }

  /** A row is its attribute's, with a draft if its field is to be created; the app owns keys in its own namespace. */
  ghost predicate IsOf(row: Row, a: Attribute) {
    && row.attributeId == a.id && row.name == a.name && row.fullKey == Trim(a.key)
    && row.owner == (if a.perVariant then ProductVariant else Product)
    && (row.owned <==> exists local :: Trim(a.key) == "recharge" + ("." + local))
    && (row.draft.Some? <==> row.status.Create?)
  }

  lemma OwnedIff(a: Attribute, status: Status)
    ensures Blank(a, status).owned <==> exists local :: Trim(a.key) == "recharge" + ("." + local)
  {
    var own := "recharge" + ".";
    if own <= FullKey(a) {
      var local := FullKey(a)[|own|..];
      assert FullKey(a) == "recharge" + ("." + local);
    }
    if local :| Trim(a.key) == "recharge" + ("." + local) {
      assert FullKey(a) == own + local;
    }
  }

  /** A row that only fills in a blank one. */
  predicate FillsIn(row: Row, a: Attribute) {
    row == Blank(a, row.status).(kind := row.kind, existingKind := row.existingKind, reason := row.reason,
                                 draft := row.draft)
  }

  lemma RefusalFillsIn(a: Attribute, measures: Measures, lists: Lists, planned: set<string>)
    ensures var refused := Refusal(a, measures, lists, planned);
            refused.Some? ==>
              FillsIn(refused.value, a) && refused.value.draft.None? && !refused.value.status.Create?
  {}

  lemma RowForIsOf(a: Attribute, measures: Measures, lists: Lists, have: Held, planned: set<string>)
    ensures IsOf(RowFor(a, measures, lists, have, planned), a)
  {
    var row := RowFor(a, measures, lists, have, planned);
    RefusalFillsIn(a, measures, lists, planned);
    assert FillsIn(row, a) && (row.draft.Some? <==> row.status.Create?);
    FilledIsOf(row, a);
  }

  lemma FilledIsOf(row: Row, a: Attribute)
    requires FillsIn(row, a) && (row.draft.Some? <==> row.status.Create?)
    ensures IsOf(row, a)
  {
    OwnedIff(a, row.status);
  }

  /** What a row says of its attribute, when it is skipped for this reason or none: left to the menu, skipped, created,
      or there already with the type it should have or with another. */
  predicate Says(row: Row, a: Attribute, measures: Measures, have: Held, menu: bool, why: Option<Reason>) {
    var kind := DefaultShopifyType(a, measures);
    if menu then row.status == Managed && row.reason == Some(StoreMenu) && row.kind == Some(MENU_KIND)
    else if why.Some? then row.status == Skipped && row.reason == why
    else if Id(a) !in have then row.status == Create && row.kind == kind && row.reason.None?
    else if Some(have[Id(a)].kind) == kind
    then row.status == Unchanged && row.kind == row.existingKind == kind && row.reason.None?
    else
      && row.status == Conflict && row.reason == Some(TypeCannotChange(have[Id(a)].kind))
      && row.kind == kind && row.existingKind == Some(have[Id(a)].kind)
  }

  lemma RefusalSays(a: Attribute, measures: Measures, lists: Lists, planned: set<string>, why: Option<Reason>)
    requires why == if Trim(a.key) == "" then Some(NoField)
                    else if !IsKey(Trim(a.key)) then Some(NotAKey)
                    else if Id(a) in planned then Some(AlreadyUsed)
                    else if a.dataType.Reference? then Some(LinkToRecord)
                    else if IsSelect(a.dataType) && Codes(a, lists) == [] then Some(NoOptions)
                    else None
    requires Id(a) == MENU_IDENTITY ==> IsKey(FullKey(a)) && FullKey(a) != ""
    ensures var refused := Refusal(a, measures, lists, planned);
            if Id(a) == MENU_IDENTITY then refused.Some? && refused.value.status == Managed
                && refused.value.reason == Some(StoreMenu) && refused.value.kind == Some(MENU_KIND)
            else if why.Some? then refused.Some? && refused.value.status == Skipped && refused.value.reason == why
            else refused.None?
  {}

  lemma RowForSays(a: Attribute, measures: Measures, lists: Lists, have: Held, planned: set<string>,
                   why: Option<Reason>)
    requires why == if Trim(a.key) == "" then Some(NoField)
                    else if !IsKey(Trim(a.key)) then Some(NotAKey)
                    else if Id(a) in planned then Some(AlreadyUsed)
                    else if a.dataType.Reference? then Some(LinkToRecord)
                    else if IsSelect(a.dataType) && Codes(a, lists) == [] then Some(NoOptions)
                    else None
    requires Id(a) == MENU_IDENTITY ==> IsKey(FullKey(a)) && FullKey(a) != ""
    ensures Says(RowFor(a, measures, lists, have, planned), a, measures, have, Id(a) == MENU_IDENTITY, why)
  {
    RefusalSays(a, measures, lists, planned, why);
  }

  lemma MenuFacts(a: Attribute)
    ensures Id(a) == MENU_IDENTITY <==> IsMenu(a)
    ensures IsMenu(a) ==> IsKey(FullKey(a)) && FullKey(a) != ""
  {
    MenuIff(a);
    MenuIsKey();
  }

  /** Each row says what becomes of its attribute. */
  lemma RowSays(attributes: seq<Attribute>, measures: Measures, lists: Lists, have: Held, i: nat)
    requires i < |attributes|
    ensures var a := attributes[i];
            Says(Rows(attributes, measures, lists, have)[i], a, measures, have, IsMenu(a),
                 WhySkipped(attributes, lists, i))
    ensures IsOf(Rows(attributes, measures, lists, have)[i], attributes[i])
  {
    var a := attributes[i];
    RowAt(attributes, measures, lists, have, i);
    RowForIsOf(a, measures, lists, have, Planned(attributes[..i]));
    if IsKey(FullKey(a)) {
      PlannedIff(attributes[..i], a);
      assert forall j :: 0 <= j < i ==> attributes[..i][j] == attributes[j];
    }
    MenuFacts(a);
    RowForSays(a, measures, lists, have, Planned(attributes[..i]), WhySkipped(attributes, lists, i));
  }

  lemma MenuIsKey()
    ensures IsKey(MENU_KEY)
  {
    MenuIsTwoParts();
    OnlyDot(MENU_KEY, "recharge", "product_" + "type_path");
  }

  lemma MenuIsTwoParts()
    ensures MENU_KEY == "recharge" + "." + ("product_" + "type_path")
    ensures KeyChars("recharge") && KeyChars("product_" + "type_path")
  {
    assert KeyChars("product_") && KeyChars("type_path");
  }

  /** A draft is its attribute: on the same owner, under the key around its dot, with its texts, its type, the choices
      of its list if it has to choose, and shown where it is shown. */
  lemma DraftSays(a: Attribute, measures: Measures, lists: Lists, have: Held, planned: set<string>, n: string,
                  k: string)
    requires RowFor(a, measures, lists, have, planned).status.Create?
    requires Trim(a.key) == n + "." + k && KeyChars(n)
    ensures var row := RowFor(a, measures, lists, have, planned);
            && row.attributeId == a.id && row.name == a.name && row.fullKey == Trim(a.key) && row.draft.Some?
            && var draft := row.draft.value;
            && draft.owner == (if a.perVariant then ProductVariant else Product)
            && draft.namespace == n && draft.key == k && draft.name == a.name && draft.description == a.description
            && Some(draft.kind) == DefaultShopifyType(a, measures) && draft.publicRead == a.storefront
            && draft.choices
               == if a.dataType.SingleSelect? || a.dataType.MultiSelect? then Some(Codes(a, lists)) else None
  {
    OnlyDot(FullKey(a), n, k);
  }

  /** What is held under an identity is the last definition there is of it. */
  lemma {:induction false} HeldIsTheLast(existing: seq<Existing>, id: string) returns (k: nat)
    requires id in Have(existing)
    ensures k < |existing| && Have(existing)[id] == existing[k] && IdentityOf(existing[k]) == id
    ensures forall j :: k < j < |existing| ==> IdentityOf(existing[j]) != id
  {
    k := |existing| - 1;
    if IdentityOf(existing[k]) != id {
      k := HeldIsTheLast(existing[..k], id);
    }
  }

  lemma {:induction false} HeldIsThere(existing: seq<Existing>, j: nat)
    requires j < |existing|
    ensures IdentityOf(existing[j]) in Have(existing)
  {
    if j < |existing| - 1 {
      HeldIsThere(existing[..|existing| - 1], j);
    }
  }

  /** Which data types a Shopify type stands for. */
  lemma KindsExactly(a: Attribute, measures: Measures)
    ensures var kind, t := DefaultShopifyType(a, measures), a.dataType;
            if t.Measurement? then kind == Some(measures(a.unit))
            else
              && (kind.None? <==> t.Reference?)
              && (kind == Some("single_line_text_field") <==> t.Text? || t.SingleSelect?)
              && (kind == Some("list.single_line_text_field") <==> t.MultiSelect?)
              && (kind == Some("number_integer") <==> t.Integer?) && (kind == Some("number_decimal") <==> t.Decimal?)
              && (kind == Some("boolean") <==> t.Boolean?) && (kind == Some("date") <==> t.Date?)
  {}

  /** Left alone is what is held for no attribute's field, and is not the menu's. */
  lemma {:induction false} ForeignExactly(existing: seq<Existing>, attributes: seq<Attribute>, e: Existing)
    ensures e in Foreign(existing, Planned(attributes)) <==>
            e in existing && IdentityOf(e) != MENU_IDENTITY && !ForSome(attributes, e)
  {
    PlannedForSome(attributes, e);
    if existing != [] {
      ForeignExactly(existing[..|existing| - 1], attributes, e);
      assert existing == existing[..|existing| - 1] + [existing[|existing| - 1]];
    }
  }

  /** An attribute with a key is for this definition's field. */
  predicate ForSome(attributes: seq<Attribute>, e: Existing) {
    exists j :: 0 <= j < |attributes| && IsKey(Trim(attributes[j].key)) && Id(attributes[j]) == IdentityOf(e)
  }

  lemma PlannedForSome(attributes: seq<Attribute>, e: Existing)
    ensures IdentityOf(e) in Planned(attributes) <==> ForSome(attributes, e)
  {
    if ForSome(attributes, e) {
      var j :| 0 <= j < |attributes| && IsKey(Trim(attributes[j].key)) && Id(attributes[j]) == IdentityOf(e);
      PlannedHas(attributes, j);
    }
    if IdentityOf(e) in Planned(attributes) {
      var j := PlannedComesFrom(attributes, IdentityOf(e));
    }
  }

  lemma {:induction false} PlannedComesFrom(attributes: seq<Attribute>, id: string) returns (j: nat)
    requires id in Planned(attributes)
    ensures j < |attributes| && IsKey(Trim(attributes[j].key)) && Id(attributes[j]) == id
  {
    j := |attributes| - 1;
    if !(IsKey(FullKey(attributes[j])) && Id(attributes[j]) == id) {
      j := PlannedComesFrom(attributes[..j], id);
    }
  }

  /* What the plan promises. */

  /** One row per attribute, and the counts sum to the rows. */
  lemma {:induction false} CountsSumToRows(rows: seq<Row>)
    ensures Count(rows, Create) + Count(rows, Unchanged) + Count(rows, Conflict) + Count(rows, Managed)
            + Count(rows, Skipped) == |rows|
  {
    if rows != [] {
      CountsSumToRows(rows[..|rows| - 1]);
    }
  }

  /** Row i is attribute i's, given what the ones before it planned. */
  lemma {:induction false} RowAt(attributes: seq<Attribute>, measures: Measures, lists: Lists, have: Held, i: nat)
    requires i < |attributes|
    ensures Rows(attributes, measures, lists, have)[i]
            == RowFor(attributes[i], measures, lists, have, Planned(attributes[..i]))
  {
    var n := |attributes| - 1;
    var rows := Rows(attributes, measures, lists, have);
    if i < n {
      RowAt(attributes[..n], measures, lists, have, i);
      assert attributes[..n][..i] == attributes[..i];
      assert rows[i] == Rows(attributes[..n], measures, lists, have)[i];
    } else {
      assert rows[i] == RowFor(attributes[n], measures, lists, have, Planned(attributes[..n]));
    }
  }

  lemma {:induction false} PlannedHas(attributes: seq<Attribute>, i: nat)
    requires i < |attributes| && IsKey(FullKey(attributes[i]))
    ensures Id(attributes[i]) in Planned(attributes)
  {
    if i < |attributes| - 1 {
      PlannedHas(attributes[..|attributes| - 1], i);
    }
  }

  lemma RefusedIsNotCreated(a: Attribute, measures: Measures, lists: Lists, planned: set<string>)
    ensures var refused := Refusal(a, measures, lists, planned);
            if refused.Some? then !refused.value.status.Create?
            else
              && IsKey(FullKey(a)) && Id(a) !in planned && Id(a) != MENU_IDENTITY
              && DefaultShopifyType(a, measures).Some?
  {}

  lemma CreatedMakesItsField(a: Attribute, kind: string, lists: Lists)
    requires '.' in FullKey(a)
    ensures var row := CreatedRow(a, kind, lists);
            row.draft.Some? && IdentityOf(Made(row.draft.value)) == Id(a)
                && row.kind == Some(kind) == Some(row.draft.value.kind)
  {
    SplitJoins(FullKey(a));
  }

  /** The identity of the definition a draft makes is its attribute's. */
  lemma DraftIsItsAttributes(a: Attribute, measures: Measures, lists: Lists, have: Held, planned: set<string>)
    requires RowFor(a, measures, lists, have, planned).status.Create?
    ensures var row := RowFor(a, measures, lists, have, planned);
            && row.draft.Some? && IdentityOf(Made(row.draft.value)) == Id(a) && row.kind == Some(row.draft.value.kind)
            && IsKey(FullKey(a)) && Id(a) !in planned && Id(a) !in have && Id(a) != MENU_IDENTITY
  {
    RefusedIsNotCreated(a, measures, lists, planned);
    assert FullKey(a)[FirstDot(FullKey(a))] == '.';
    CreatedMakesItsField(a, DefaultShopifyType(a, measures).value, lists);
  }

  /** The definition Shopify holds once a draft is created. */
  function Made(d: Draft): Existing {
    Existing(d.owner, d.namespace, d.key, d.kind)
  }

  /** Created rows are for different fields, none of them held already and none of them the menu's. */
  lemma CreatesAreNew(attributes: seq<Attribute>, measures: Measures, lists: Lists, have: Held, i: nat, j: nat)
    requires i < j < |attributes|
    requires var rows := Rows(attributes, measures, lists, have); rows[i].status.Create? && rows[j].status.Create?
    ensures var rows := Rows(attributes, measures, lists, have);
            && rows[i].draft.Some? && rows[j].draft.Some?
            && IdentityOf(Made(rows[i].draft.value)) != IdentityOf(Made(rows[j].draft.value))
            && IdentityOf(Made(rows[i].draft.value)) !in have.Keys + {MENU_IDENTITY}
            && IdentityOf(Made(rows[j].draft.value)) !in have.Keys + {MENU_IDENTITY}
  {
    RowAt(attributes, measures, lists, have, i);
    RowAt(attributes, measures, lists, have, j);
    DraftIsItsAttributes(attributes[i], measures, lists, have, Planned(attributes[..i]));
    DraftIsItsAttributes(attributes[j], measures, lists, have, Planned(attributes[..j]));
    assert attributes[..j][i] == attributes[i];
    PlannedHas(attributes[..j], i);
  }

  /* Planning again after creating. */

  /** The definitions made from the drafts of the chosen rows. */
  function MadeFrom(rows: seq<Row>, chosen: nat -> bool): seq<Existing> {
    if rows == [] then []
    else
      var n := |rows| - 1;
      MadeFrom(rows[..n], chosen)
          + if chosen(n) && rows[n].status.Create? && rows[n].draft.Some? then [Made(rows[n].draft.value)] else []
  }

  function All(): nat -> bool {
    i => true
  }

  /** A created row when its definition has been made. */
  function Settled(row: Row): Row {
    row.(status := Unchanged, existingKind := row.kind, draft := None)
  }

  lemma {:induction false} HaveAppend(a: seq<Existing>, b: seq<Existing>)
    ensures Have(a + b) == Have(a) + Have(b)
  {
    if b == [] {
      assert a + b == a;
    } else {
      assert (a + b)[..|a + b| - 1] == a + b[..|b| - 1];
      HaveAppend(a, b[..|b| - 1]);
    }
  }

  ghost predicate Makes(rows: seq<Row>, chosen: nat -> bool, i: nat, id: string) {
    i < |rows| && chosen(i) && rows[i].status.Create? && rows[i].draft.Some?
        && IdentityOf(Made(rows[i].draft.value)) == id
  }

  lemma MadeStep(rows: seq<Row>, chosen: nat -> bool)
    requires rows != []
    ensures var n := |rows| - 1;
            var before, after := Have(MadeFrom(rows[..n], chosen)), Have(MadeFrom(rows, chosen));
            after == if chosen(n) && rows[n].status.Create? && rows[n].draft.Some?
                     then before[IdentityOf(Made(rows[n].draft.value)) := Made(rows[n].draft.value)] else before
  {
    var n := |rows| - 1;
    var before := MadeFrom(rows[..n], chosen);
    if chosen(n) && rows[n].status.Create? && rows[n].draft.Some? {
      var made := Made(rows[n].draft.value);
      assert (before + [made])[..|before|] == before;
    } else {
      assert MadeFrom(rows, chosen) == before;
    }
  }

  /** What was made under an identity was made from a row. */
  lemma {:induction false} MadeComesFrom(rows: seq<Row>, chosen: nat -> bool, id: string) returns (i: nat)
    requires id in Have(MadeFrom(rows, chosen))
    ensures Makes(rows, chosen, i, id) && Have(MadeFrom(rows, chosen))[id] == Made(rows[i].draft.value)
    decreases |rows|
  {
    MadeStep(rows, chosen);
    i := |rows| - 1;
    if !Makes(rows, chosen, i, id) {
      i := MadeComesFrom(rows[..i], chosen, id);
    }
  }

  lemma {:induction false} MadeIsThere(rows: seq<Row>, chosen: nat -> bool, i: nat, id: string)
    requires Makes(rows, chosen, i, id)
    ensures id in Have(MadeFrom(rows, chosen))
  {
    MadeStep(rows, chosen);
    if i < |rows| - 1 {
      MadeIsThere(rows[..|rows| - 1], chosen, i, id);
    }
  }

  /** A row depends on what is held under its own identity only. */
  lemma SameHeldSameRow(a: Attribute, measures: Measures, lists: Lists, have: Held,
                        other: Held, planned: set<string>)
    requires Id(a) in have <==> Id(a) in other
    requires Id(a) in have ==> have[Id(a)] == other[Id(a)]
    ensures RowFor(a, measures, lists, have, planned) == RowFor(a, measures, lists, other, planned)
  {}

  /** And on nothing held when it has no key of its own. */
  lemma KeylessRow(a: Attribute, measures: Measures, lists: Lists, have: Held,
                   other: Held, planned: set<string>)
    requires !IsKey(FullKey(a)) || Id(a) in planned
    ensures RowFor(a, measures, lists, have, planned) == RowFor(a, measures, lists, other, planned)
    ensures !RowFor(a, measures, lists, have, planned).status.Create?
  {}

  lemma CreatedSettles(a: Attribute, measures: Measures, lists: Lists, have: Held,
                       other: Held, planned: set<string>)
    requires RowFor(a, measures, lists, have, planned).status.Create?
    requires Id(a) in other && Some(other[Id(a)].kind) == RowFor(a, measures, lists, have, planned).kind
    ensures RowFor(a, measures, lists, other, planned) == Settled(RowFor(a, measures, lists, have, planned))
  {}

  /** Planning again once the drafts of any of the created rows have been made: those rows are unchanged now, and
      every other row is as it was. */
  lemma ReplannedRow(attributes: seq<Attribute>, measures: Measures, lists: Lists, existing: seq<Existing>,
                     chosen: nat -> bool, i: nat)
    requires i < |attributes|
    ensures var rows := Rows(attributes, measures, lists, Have(existing));
            var again := Rows(attributes, measures, lists, Have(existing + MadeFrom(rows, chosen)));
            again[i] == if chosen(i) && rows[i].status.Create? then Settled(rows[i]) else rows[i]
  {
    var have := Have(existing);
    var rows := Rows(attributes, measures, lists, have);
    var made := Have(MadeFrom(rows, chosen));
    var a, planned := attributes[i], Planned(attributes[..i]);
    HaveAppend(existing, MadeFrom(rows, chosen));
    RowAt(attributes, measures, lists, have, i);
    RowAt(attributes, measures, lists, have + made, i);
    if Id(a) in made {
      var j := MadeComesFrom(rows, chosen, Id(a));
      MakerIsFirst(attributes, measures, lists, have, chosen, i, j);
      if j == i {
        DraftIsItsAttributes(a, measures, lists, have, planned);
        CreatedSettles(a, measures, lists, have, have + made, planned);
      } else {
        KeylessRow(a, measures, lists, have, have + made, planned);
      }
    } else {
      SameHeldSameRow(a, measures, lists, have, have + made, planned);
      if rows[i].status.Create? && chosen(i) {
        DraftIsItsAttributes(a, measures, lists, have, planned);
        MadeIsThere(rows, chosen, i, Id(a));
      }
    }
  }

  /** The row that makes a field is the first to plan it: an earlier one with its identity has no key, a later one is
      refused as already used. */
  lemma MakerIsFirst(attributes: seq<Attribute>, measures: Measures, lists: Lists, have: Held,
                     chosen: nat -> bool, i: nat, j: nat)
    requires i < |attributes| && Makes(Rows(attributes, measures, lists, have), chosen, j, Id(attributes[i]))
    ensures j < i ==> Id(attributes[i]) in Planned(attributes[..i])
    ensures i < j ==> !IsKey(FullKey(attributes[i]))
    ensures Id(attributes[i]) !in have
  {
    RowAt(attributes, measures, lists, have, j);
    DraftIsItsAttributes(attributes[j], measures, lists, have, Planned(attributes[..j]));
    assert Id(attributes[j]) == Id(attributes[i]);
    if j < i {
      assert attributes[..i][j] == attributes[j];
      PlannedHas(attributes[..i], j);
    } else if i < j && IsKey(FullKey(attributes[i])) {
      assert attributes[..j][i] == attributes[i];
      PlannedHas(attributes[..j], i);
    }
  }

  lemma {:induction false} ForeignAppend(a: seq<Existing>, b: seq<Existing>, planned: set<string>)
    requires forall k :: 0 <= k < |b| ==> IdentityOf(b[k]) in planned
    ensures Foreign(a + b, planned) == Foreign(a, planned)
  {
    if b == [] {
      assert a + b == a;
    } else {
      assert (a + b)[..|a + b| - 1] == a + b[..|b| - 1];
      ForeignAppend(a, b[..|b| - 1], planned);
    }
  }

  /** What is made of a created row is under its attribute's identity. */
  lemma MakerIsPlanned(attributes: seq<Attribute>, measures: Measures, lists: Lists, have: Held, i: nat)
    requires i < |attributes| && Rows(attributes, measures, lists, have)[i].status.Create?
    ensures var row := Rows(attributes, measures, lists, have)[i];
            row.draft.Some? && IdentityOf(Made(row.draft.value)) in Planned(attributes)
  {
    RowAt(attributes, measures, lists, have, i);
    DraftIsItsAttributes(attributes[i], measures, lists, have, Planned(attributes[..i]));
    PlannedHas(attributes, i);
  }

  lemma {:induction false} MadeWasPlanned(rows: seq<Row>, chosen: nat -> bool, planned: set<string>)
    requires forall i :: 0 <= i < |rows| && rows[i].status.Create? && rows[i].draft.Some? ==>
            IdentityOf(Made(rows[i].draft.value)) in planned
    ensures forall k :: 0 <= k < |MadeFrom(rows, chosen)| ==> IdentityOf(MadeFrom(rows, chosen)[k]) in planned
  {
    if rows != [] {
      var n := |rows| - 1;
      var before := rows[..n];
      forall i | 0 <= i < n && before[i].status.Create? && before[i].draft.Some?
        ensures IdentityOf(Made(before[i].draft.value)) in planned
      {
        assert before[i] == rows[i];
      }
      MadeWasPlanned(before, chosen, planned);
    }
  }

  /** Planning again leaves the same definitions alone. */
  lemma ReplanSameForeign(schema: Schema, measures: Measures, existing: seq<Existing>, chosen: nat -> bool)
    ensures var plan := Planning(schema, measures, existing);
            Planning(schema, measures, existing + MadeFrom(plan.rows, chosen)).foreign == plan.foreign
  {
    var plan := Planning(schema, measures, existing);
    forall i | 0 <= i < |plan.rows| && plan.rows[i].status.Create? && plan.rows[i].draft.Some?
      ensures IdentityOf(Made(plan.rows[i].draft.value)) in Planned(schema.attributes)
    {
      MakerIsPlanned(schema.attributes, measures, ListsById(schema.valueLists), Have(existing), i);
    }
    MadeWasPlanned(plan.rows, chosen, Planned(schema.attributes));
    ForeignAppend(existing, MadeFrom(plan.rows, chosen), Planned(schema.attributes));
  }

  /** Planning is idempotent: with every draft created the new plan creates nothing. */
  lemma ReplanCreatesNothing(schema: Schema, measures: Measures, existing: seq<Existing>)
    ensures var plan := Planning(schema, measures, existing);
            Planning(schema, measures, existing + MadeFrom(plan.rows, All())).counts[Create] == 0
  {
    var lists, plan := ListsById(schema.valueLists), Planning(schema, measures, existing);
    var rows := Rows(schema.attributes, measures, lists, Have(existing + MadeFrom(plan.rows, All())));
    forall i | 0 <= i < |rows| ensures !rows[i].status.Create? {
      ReplannedRow(schema.attributes, measures, lists, existing, All(), i);
    }
    NoneCounted(rows);
  }

  lemma {:induction false} NoneCounted(rows: seq<Row>)
    requires forall i :: 0 <= i < |rows| ==> !rows[i].status.Create?
    ensures Count(rows, Create) == 0
  {
    if rows != [] {
      NoneCounted(rows[..|rows| - 1]);
    }
  }
}
