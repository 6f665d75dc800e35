/** The variants of a tenant's products: creation one by one and in bulk, updates, and what keeps the
    combinations of a product apart. */
module Variants {
  import opened Prelude
  import opened Model
  import opened Combinations

  datatype VariantRow = VariantRow(product: Id, attributes: Attributes, sku: Option<string>, stock: nat)
  datatype Payload = Payload(attributes: Attributes, sku: Option<string>, stock: nat)

  /** The columns a PATCH sets; sku may be set to null. */
  datatype Patch = Patch(attributes: Option<Attributes>, sku: Option<Option<string>>, stock: Option<nat>)

  datatype VariantError = ProductNotFound | VariantNotFound | DuplicateSku | AttributesConflict | SkuConflict

  type Rows = map<Id, VariantRow>

  // ---- What the database and the services keep ----

  /** UNIQUE (tenant, sku): null never conflicts. */
  predicate SkusUnique(rows: Rows)
  {
    forall i, j :: i in rows && j in rows && i != j && rows[i].sku.Some? ==> rows[i].sku != rows[j].sku
  }

  /** Two variants of a product never have the same combination, unless it is the empty one. */
  predicate CombinationsDistinct(rows: Rows)
  {
    forall i, j :: i in rows && j in rows && i != j && rows[i].product == rows[j].product && rows[i].attributes != map[]
      ==> rows[i].attributes != rows[j].attributes
  }

  predicate CombinationUsed(rows: Rows, product: Id, m: Attributes)
  {
    m != map[] && exists i :: i in rows && rows[i].product == product && rows[i].attributes == m
  }

  predicate SkuUsed(rows: Rows, sku: Option<string>)
  {
    sku.Some? && exists i :: i in rows && rows[i].sku == sku
  }

  function RowOf(product: Id, p: Payload): VariantRow
  {
    VariantRow(product, p.attributes, p.sku, p.stock)
  }

  function Patched(row: VariantRow, patch: Patch): VariantRow
  {
    VariantRow(row.product,
               if patch.attributes.Some? then patch.attributes.value else row.attributes,
               if patch.sku.Some? then patch.sku.value else row.sku,
               if patch.stock.Some? then patch.stock.value else row.stock)
  }

  /** The rows with one more row for each payload. */
  function Inserted(rows: Rows, product: Id, items: seq<Payload>, first: Id): Rows
  {
    if items == [] then rows
    else
      var k := |items| - 1;
      Inserted(rows, product, items[..k], first)[first + k := RowOf(product, items[k])]
  }

  function Positions(first: Id, n: nat): (r: seq<Id>)
    ensures |r| == n && forall k :: 0 <= k < n ==> r[k] == first + k
  {
    seq(n, k requires 0 <= k < n => first + k)
  }

  // ---- A lot ----

  predicate IsSpace(c: char)
  {
    || '\t' <= c <= '\r' || '\U{1C}' <= c <= ' ' || c == '\U{85}' || c == '\U{A0}' || c == '\U{1680}'
    || '\U{2000}' <= c <= '\U{200A}' || c in {'\U{2028}', '\U{2029}', '\U{202F}', '\U{205F}', '\U{3000}'}
  }

  /** The code points that count as space. */
  lemma SpacesAre(c: char)
    ensures IsSpace(c) <==> c as int in {
      9, 10, 11, 12, 13, 28, 29, 30, 31, 32, 133, 160, 5760, 8192, 8193, 8194, 8195, 8196, 8197, 8198, 8199, 8200, 8201,
      8202, 8232, 8233, 8239, 8287, 12288}
  {
  }

  function StripLeft(s: string): string
  {
    if s != "" && IsSpace(s[0]) then StripLeft(s[1..]) else s
  }

  function Strip(s: string): string
    decreases |s|
  {
    if s != "" && IsSpace(s[|s| - 1]) then Strip(s[..|s| - 1]) else StripLeft(s)
  }

  predicate AllSpace(s: string)
  {
    forall i :: 0 <= i < |s| ==> IsSpace(s[i])
  }

  /** t is s without a leading and a trailing part, both of spaces. */
  predicate Cut(s: string, t: string, a: nat, b: nat)
  {
    a <= b <= |s| && t == s[a..b] && AllSpace(s[..a]) && AllSpace(s[b..])
  }

  predicate Bare(t: string)
  {
    t != "" ==> !IsSpace(t[0]) && !IsSpace(t[|t| - 1])
  }

  lemma CutEarlier(c: char, rest: string, t: string, a: nat)
    requires Cut(rest, t, a, |rest|) && IsSpace(c)
    ensures Cut([c] + rest, t, a + 1, 1 + |rest|)
  {
    var s := [c] + rest;
    assert s[a + 1..1 + |rest|] == rest[a..|rest|];
    assert s[..a + 1] == [c] + rest[..a];
    assert s[1 + |rest|..] == [];
  }

  lemma {:induction false} StripLeftTrims(s: string) returns (a: nat)
    ensures Cut(s, StripLeft(s), a, |s|)
    ensures StripLeft(s) != "" ==> !IsSpace(StripLeft(s)[0])
  {
    if s != "" && IsSpace(s[0]) {
      a := StripLeftTrims(s[1..]);
      CutEarlier(s[0], s[1..], StripLeft(s[1..]), a);
      assert [s[0]] + s[1..] == s;
      a := a + 1;
    } else {
      a := 0;
    }
  }

  lemma CutMore(front: string, c: char, t: string, a: nat, b: nat)
    requires Cut(front, t, a, b) && IsSpace(c)
    ensures Cut(front + [c], t, a, b)
  {
    var s := front + [c];
    assert s[a..b] == front[a..b] && s[..a] == front[..a] && s[b..] == front[b..] + [c];
  }

  /** Strip takes away all the spaces around a string and nothing else. */
  lemma {:induction false} StripTrims(s: string) returns (a: nat, b: nat)
    ensures Bare(Strip(s)) && Cut(s, Strip(s), a, b)
    decreases |s|
  {
    if s != "" && IsSpace(s[|s| - 1]) {
      var front := s[..|s| - 1];
      a, b := StripTrims(front);
      CutMore(front, s[|s| - 1], Strip(front), a, b);
      assert s == front + [s[|s| - 1]];
    } else {
      a := StripLeftTrims(s);
      b := |s|;
    }
  }

  /** (item.sku or "").strip() */
  function Trimmed(p: Payload): string
  {
    if p.sku.Some? then Strip(p.sku.value) else ""
  }

  predicate RepeatsSku(items: seq<Payload>, k: nat)
    requires k < |items|
  {
    Trimmed(items[k]) != "" && exists j :: 0 <= j < k && Trimmed(items[j]) == Trimmed(items[k])
  }

  predicate RepeatsCombination(rows: Rows, product: Id, items: seq<Payload>, k: nat)
    requires k < |items|
  {
    items[k].attributes != map[]
    && (CombinationUsed(rows, product, items[k].attributes)
        || exists j :: 0 <= j < k && items[j].attributes == items[k].attributes)
  }

  /** None of the first n payloads repeats an SKU of the lot or a combination of the lot or the product. */
  predicate Clean(rows: Rows, product: Id, items: seq<Payload>, n: nat)
    requires n <= |items|
  {
    forall k :: 0 <= k < n ==> !RepeatsSku(items, k) && !RepeatsCombination(rows, product, items, k)
  }

  /** The lot as written, blanks included, meets the unique constraint. */
  predicate SkusFree(rows: Rows, items: seq<Payload>)
  {
    forall k :: 0 <= k < |items| && items[k].sku.Some? ==>
      && !SkuUsed(rows, items[k].sku)
      && forall j :: 0 <= j < k ==> items[j].sku != items[k].sku
  }

  predicate LotFits(rows: Rows, product: Id, items: seq<Payload>)
  {
    Clean(rows, product, items, |items|) && SkusFree(rows, items)
  }

  // ---- The invariant through every kind of write ----

  lemma {:induction false} InsertedRows(rows: Rows, product: Id, items: seq<Payload>, first: Id)
    requires forall i :: i in rows ==> i < first
    ensures var after := Inserted(rows, product, items, first);
      && (forall i :: i in after <==> i in rows || first <= i < first + |items|)
      && (forall i :: i in rows ==> after[i] == rows[i])
      && (forall k :: 0 <= k < |items| ==> after[first + k] == RowOf(product, items[k]))
  {
    if items != [] {
      InsertedRows(rows, product, items[..|items| - 1], first);
    }
  }

  lemma LotKeepsCombinations(rows: Rows, product: Id, items: seq<Payload>, first: Id)
    requires forall i :: i in rows ==> i < first
    requires CombinationsDistinct(rows) && Clean(rows, product, items, |items|)
    ensures CombinationsDistinct(Inserted(rows, product, items, first))
  {
    InsertedRows(rows, product, items, first);
    var after := Inserted(rows, product, items, first);
    forall i, j | i in after && j in after && i < j
      ensures after[i].product == after[j].product && after[i].attributes == after[j].attributes ==>
        after[i].attributes == map[]
    {
      if first <= j {
        var k := j - first;
        assert !RepeatsCombination(rows, product, items, k);
        assert after[j] == RowOf(product, items[k]);
        if first <= i {
          assert after[i] == RowOf(product, items[i - first]);
        }
      }
    }
  }

  lemma LotKeepsSkus(rows: Rows, product: Id, items: seq<Payload>, first: Id)
    requires forall i :: i in rows ==> i < first
    requires SkusUnique(rows) && SkusFree(rows, items)
    ensures SkusUnique(Inserted(rows, product, items, first))
  {
    InsertedRows(rows, product, items, first);
    var after := Inserted(rows, product, items, first);
    forall i, j | i in after && j in after && i < j ensures after[i].sku.Some? ==> after[i].sku != after[j].sku {
      if first <= j {
        assert after[j] == RowOf(product, items[j - first]);
        if first <= i {
          assert after[i] == RowOf(product, items[i - first]);
        }
      }
    }
  }

  /** One row for every payload, with its attributes, its SKU as written and its stock, and nothing else. */
  predicate LotAdded(before: Rows, product: Id, items: seq<Payload>, first: Id, after: Rows)
  {
    && (forall i :: i in after ==> i in before || first <= i < first + |items|)
    && (forall i :: i in before ==> i in after && after[i] == before[i])
    && (forall k :: 0 <= k < |items| ==>
          first + k in after
          && after[first + k] == VariantRow(product, items[k].attributes, items[k].sku, items[k].stock))
  }

  /** A lot that fits leaves the product's combinations distinct and the SKUs unique. */
  lemma LotKeepsDistinct(rows: Rows, product: Id, items: seq<Payload>, first: Id)
    requires forall i :: i in rows ==> i < first
    requires CombinationsDistinct(rows) && SkusUnique(rows) && LotFits(rows, product, items)
    ensures CombinationsDistinct(Inserted(rows, product, items, first))
    ensures SkusUnique(Inserted(rows, product, items, first))
  {
    LotKeepsCombinations(rows, product, items, first);
    LotKeepsSkus(rows, product, items, first);
  }

  /** Distinctness is necessary too: a clean start and a distinct result mean the lot repeated nothing. */
  lemma DistinctLotRepeatsNothing(rows: Rows, product: Id, items: seq<Payload>, first: Id, k: nat)
    requires forall i :: i in rows ==> i < first
    requires k < |items| && CombinationsDistinct(Inserted(rows, product, items, first))
    ensures !RepeatsCombination(rows, product, items, k)
  {
    InsertedRows(rows, product, items, first);
    var after := Inserted(rows, product, items, first);
    assert after[first + k] == RowOf(product, items[k]);
    forall j | 0 <= j < k && items[k].attributes != map[] ensures items[j].attributes != items[k].attributes {
      assert after[first + j] == RowOf(product, items[j]);
    }
  }

  lemma PatchKeepsCombinations(rows: Rows, variant: Id, patch: Patch)
    requires variant in rows && CombinationsDistinct(rows)
    requires patch.attributes.Some? ==>
      !CombinationUsed(rows - {variant}, rows[variant].product, patch.attributes.value)
    ensures CombinationsDistinct(rows[variant := Patched(rows[variant], patch)])
  {
    var others, row := rows - {variant}, Patched(rows[variant], patch);
    forall i | i in others
      ensures row.product == rows[i].product && row.attributes != map[] ==> row.attributes != rows[i].attributes
    {
      assert others[i] == rows[i];
    }
  }

  lemma PatchKeepsSkus(rows: Rows, variant: Id, patch: Patch)
    requires variant in rows && SkusUnique(rows)
    requires patch.sku.Some? ==> !SkuUsed(rows - {variant}, patch.sku.value)
    ensures SkusUnique(rows[variant := Patched(rows[variant], patch)])
  {
    var others, row := rows - {variant}, Patched(rows[variant], patch);
    forall i | i in others ensures row.sku.Some? ==> row.sku != rows[i].sku {
      assert others[i] == rows[i];
    }
  }

  /** A new variant is refused exactly when its row would break what the table keeps: a combination twice on a
      product, or an SKU twice. Null SKUs and empty combinations never do. */
  lemma CreationRefusedExactly(rows: Rows, product: Id, payload: Payload, next: Id)
    requires next !in rows && CombinationsDistinct(rows) && SkusUnique(rows)
    ensures var after := rows[next := VariantRow(product, payload.attributes, payload.sku, payload.stock)];
      && (CombinationUsed(rows, product, payload.attributes) <==> !CombinationsDistinct(after))
      && (SkuUsed(rows, payload.sku) <==> !SkusUnique(after))
  {
    var after := rows[next := VariantRow(product, payload.attributes, payload.sku, payload.stock)];
    if CombinationUsed(rows, product, payload.attributes) {
      var i :| i in rows && rows[i].product == product && rows[i].attributes == payload.attributes;
      assert after[i].product == after[next].product && after[i].attributes == after[next].attributes;
    }
    if SkuUsed(rows, payload.sku) {
      var i :| i in rows && rows[i].sku == payload.sku;
      assert after[i].sku == after[next].sku;
    }
  }

  /** The columns sent are written, the others stay, and the variant stays with its product. */
  predicate Rewritten(before: VariantRow, patch: Patch, after: VariantRow)
  {
    && after.product == before.product
    && after.attributes == (match patch.attributes case Some(a) => a case None => before.attributes)
    && after.sku == (match patch.sku case Some(k) => k case None => before.sku)
    && after.stock == (match patch.stock case Some(n) => n case None => before.stock)
  }

  /** A PATCH is refused exactly when the rewritten row would break what the table keeps. */
  lemma PatchRefusedExactly(rows: Rows, variant: Id, patch: Patch, row: VariantRow)
    requires variant in rows && CombinationsDistinct(rows) && SkusUnique(rows)
    requires Rewritten(rows[variant], patch, row)
    ensures !CombinationsDistinct(rows[variant := row]) <==>
      patch.attributes.Some? && CombinationUsed(rows - {variant}, row.product, patch.attributes.value)
    ensures !SkusUnique(rows[variant := row]) <==> patch.sku.Some? && SkuUsed(rows - {variant}, patch.sku.value)
  {
    var after, others := rows[variant := row], rows - {variant};
    assert forall i :: i in others ==> after[i] == rows[i] == others[i];
    if patch.attributes.Some? && CombinationUsed(others, row.product, patch.attributes.value) {
      var i :| i in others && others[i].product == row.product && others[i].attributes == patch.attributes.value;
      assert after[i].attributes == after[variant].attributes;
    }
    if patch.sku.Some? && SkuUsed(others, patch.sku.value) {
      var i :| i in others && others[i].sku == patch.sku.value;
      assert after[i].sku == after[variant].sku;
    }
    assert row == Patched(rows[variant], patch);
    if !(patch.attributes.Some? && CombinationUsed(others, row.product, patch.attributes.value)) {
      PatchKeepsCombinations(rows, variant, patch);
    }
    if !(patch.sku.Some? && SkuUsed(others, patch.sku.value)) {
      PatchKeepsSkus(rows, variant, patch);
    }
  }

  /** No SKU twice in the lot once the spaces around it are taken away, blank ones and nulls aside. */
  predicate TrimmedDistinct(items: seq<Payload>)
  {
    forall j, k :: 0 <= j < k < |items| && items[j].sku.Some? && items[k].sku.Some? && Strip(items[k].sku.value) != "" ==>
      Strip(items[j].sku.value) != Strip(items[k].sku.value)
  }

  /** A lot fits exactly when its trimmed SKUs differ and the table keeps, with all its rows added, distinct
      combinations and unique SKUs. */
  lemma LotFitsExactly(rows: Rows, product: Id, items: seq<Payload>, first: Id)
    requires (forall i :: i in rows ==> i < first) && CombinationsDistinct(rows) && SkusUnique(rows)
    ensures LotFits(rows, product, items) <==>
      && TrimmedDistinct(items)
      && CombinationsDistinct(Inserted(rows, product, items, first)) && SkusUnique(Inserted(rows, product, items, first))
  {
    var after := Inserted(rows, product, items, first);
    InsertedRows(rows, product, items, first);
    if LotFits(rows, product, items) {
      LotKeepsDistinct(rows, product, items, first);
      forall j, k | 0 <= j < k < |items| && items[j].sku.Some? && items[k].sku.Some? && Strip(items[k].sku.value) != ""
        ensures Strip(items[j].sku.value) != Strip(items[k].sku.value)
      {
        assert !RepeatsSku(items, k);
        assert Trimmed(items[j]) == Strip(items[j].sku.value) && Trimmed(items[k]) == Strip(items[k].sku.value);
      }
    }
    if TrimmedDistinct(items) && CombinationsDistinct(after) && SkusUnique(after) {
      forall k | 0 <= k < |items| ensures !RepeatsSku(items, k) && !RepeatsCombination(rows, product, items, k) {
        DistinctLotRepeatsNothing(rows, product, items, first, k);
        TrimmedNeverRepeats(items, k);
      }
      UniqueLotIsFree(rows, product, items, first);
    }
  }

  lemma TrimmedNeverRepeats(items: seq<Payload>, k: nat)
    requires TrimmedDistinct(items) && k < |items|
    ensures !RepeatsSku(items, k)
  {
    forall j | 0 <= j < k && Trimmed(items[k]) != "" ensures Trimmed(items[j]) != Trimmed(items[k]) {
      if items[j].sku.Some? {
        assert Strip(items[j].sku.value) != Strip(items[k].sku.value);
      }
    }
  }

  lemma UniqueLotIsFree(rows: Rows, product: Id, items: seq<Payload>, first: Id)
    requires (forall i :: i in rows ==> i < first) && SkusUnique(Inserted(rows, product, items, first))
    ensures SkusFree(rows, items)
  {
    var after := Inserted(rows, product, items, first);
    InsertedRows(rows, product, items, first);
    forall k | 0 <= k < |items| && items[k].sku.Some?
      ensures !SkuUsed(rows, items[k].sku) && forall j :: 0 <= j < k ==> items[j].sku != items[k].sku
    {
      assert after[first + k] == RowOf(product, items[k]);
      forall i | i in rows ensures rows[i].sku != items[k].sku {
        assert after[i] == rows[i];
      }
      forall j | 0 <= j < k ensures items[j].sku != items[k].sku {
        assert after[first + j] == RowOf(product, items[j]);
      }
    }
  }

  /** Why a lot is refused before anything is written: the first payload that repeats something. */
  ghost predicate FirstRepeat(rows: Rows, product: Id, items: seq<Payload>, e: VariantError)
  {
    exists k :: 0 <= k < |items| && Clean(rows, product, items, k)
      && ((e == DuplicateSku && RepeatsSku(items, k))
          || (e == AttributesConflict && !RepeatsSku(items, k) && RepeatsCombination(rows, product, items, k)))
  }

  lemma RepeatRefuses(rows: Rows, product: Id, items: seq<Payload>, e: VariantError)
    requires FirstRepeat(rows, product, items, e)
    ensures !Clean(rows, product, items, |items|)
  {
  }

  lemma CleanStep(rows: Rows, product: Id, items: seq<Payload>, n: nat)
    requires n < |items| && Clean(rows, product, items, n)
    ensures RepeatsSku(items, n) ==> FirstRepeat(rows, product, items, DuplicateSku)
    ensures !RepeatsSku(items, n) && RepeatsCombination(rows, product, items, n) ==>
      FirstRepeat(rows, product, items, AttributesConflict)
    ensures !RepeatsSku(items, n) && !RepeatsCombination(rows, product, items, n) ==> Clean(rows, product, items, n + 1)
  {
  }

  // ---- The two sets of the bulk loop ----

  ghost predicate SkusSeen(seen: set<string>, items: seq<Payload>, n: nat)
    requires n <= |items|
  {
    forall s :: s in seen <==> s != "" && exists j :: 0 <= j < n && Trimmed(items[j]) == s
  }

  /** The combination is used by a variant of the product or by one of the first n payloads. */
  predicate Taken(rows: Rows, product: Id, items: seq<Payload>, n: nat, m: Attributes)
    requires n <= |items|
  {
    m != map[] && (CombinationUsed(rows, product, m) || exists j :: 0 <= j < n && items[j].attributes == m)
  }

  ghost predicate CombosSeen(seen: set<seq<Item>>, rows: Rows, product: Id, items: seq<Payload>, n: nat)
    requires n <= |items|
  {
    forall m: Attributes :: m != map[] ==> (AttributesKey(m) in seen <==> Taken(rows, product, items, n, m))
  }

  lemma SkuSeenStep(seen: set<string>, items: seq<Payload>, n: nat)
    requires n < |items| && SkusSeen(seen, items, n)
    ensures var sku := Trimmed(items[n]);
      && (RepeatsSku(items, n) <==> sku != "" && sku in seen)
      && SkusSeen(if sku != "" then seen + {sku} else seen, items, n + 1)
  {
    var sku := Trimmed(items[n]);
    var more := if sku != "" then seen + {sku} else seen;
    forall s ensures s in more <==> s != "" && exists j :: 0 <= j < n + 1 && Trimmed(items[j]) == s {
      if s == sku {
        assert Trimmed(items[n]) == s;
      }
    }
  }

  lemma ComboSeenStep(seen: set<seq<Item>>, rows: Rows, product: Id, items: seq<Payload>, n: nat)
    requires n < |items| && CombosSeen(seen, rows, product, items, n)
    ensures var combo := AttributesKey(items[n].attributes);
      && (RepeatsCombination(rows, product, items, n) <==> combo != [] && combo in seen)
      && CombosSeen(if combo != [] then seen + {combo} else seen, rows, product, items, n + 1)
  {
    var a := items[n].attributes;
    KeyIdentifies(a, map[]);
    forall m: Attributes | m != map[]
      ensures AttributesKey(m) in (if a != map[] then seen + {AttributesKey(a)} else seen)
        <==> Taken(rows, product, items, n + 1, m)
    {
      KeyIdentifies(m, a);
      if m == a {
        assert items[n].attributes == m;
      }
      assert Taken(rows, product, items, n + 1, m) <==> Taken(rows, product, items, n, m) || m == a;
    }
  }

  /** The keys of the combinations the product's variants have. */
  function KeysOf(rows: Rows, product: Id): set<seq<Item>>
  {
    set i | i in rows && rows[i].product == product :: AttributesKey(rows[i].attributes)
  }

  lemma KeysMeanUsed(rows: Rows, product: Id, m: Attributes)
    requires m != map[]
    ensures AttributesKey(m) in KeysOf(rows, product) <==> CombinationUsed(rows, product, m)
  {
    if AttributesKey(m) in KeysOf(rows, product) {
      var i :| i in rows && rows[i].product == product && AttributesKey(rows[i].attributes) == AttributesKey(m);
      KeyIdentifies(rows[i].attributes, m);
    }
  }

  /** The loop over the lot, before anything is written. */
  method CheckLot(rows: Rows, product: Id, items: seq<Payload>) returns (fault: Option<VariantError>)
    ensures fault.None? <==> Clean(rows, product, items, |items|)
    ensures fault.Some? ==> FirstRepeat(rows, product, items, fault.value)
  {
    var seenSkus: set<string> := {};
    var seenCombos := KeysOf(rows, product);
    forall m: Attributes | m != map[]
      ensures AttributesKey(m) in seenCombos <==> Taken(rows, product, items, 0, m)
    {
      KeysMeanUsed(rows, product, m);
    }
    for i := 0 to |items|
      invariant Clean(rows, product, items, i)
      invariant SkusSeen(seenSkus, items, i)
      invariant CombosSeen(seenCombos, rows, product, items, i)
    {
      SkuSeenStep(seenSkus, items, i);
      ComboSeenStep(seenCombos, rows, product, items, i);
      CleanStep(rows, product, items, i);
      var sku := Trimmed(items[i]);
      if sku != "" && sku in seenSkus {
        RepeatRefuses(rows, product, items, DuplicateSku);
        return Some(DuplicateSku);
      }
      if sku != "" {
        seenSkus := seenSkus + {sku};
      }
      var combo := AttributesKey(items[i].attributes);
      if combo != [] && combo in seenCombos {
        RepeatRefuses(rows, product, items, AttributesConflict);
        return Some(AttributesConflict);
      }
      if combo != [] {
        seenCombos := seenCombos + {combo};
      }
    }
    return None;
  }

  class VariantTable {
    var products: set<Id>
    var rows: Rows
    var next: Id

    ghost predicate Valid()
      reads this
    {
      (forall i :: i in rows ==> i < next) && CombinationsDistinct(rows) && SkusUnique(rows)
    }

    method CreateVariant(product: Id, payload: Payload) returns (r: Result<Id, VariantError>)
      requires Valid()
      modifies this`rows, this`next
      ensures Valid()
      ensures r == Err(ProductNotFound) <==> product !in products
      ensures r == Err(AttributesConflict) <==>
        product in products && CombinationUsed(old(rows), product, payload.attributes)
      ensures r == Err(SkuConflict) <==>
        && product in products && !CombinationUsed(old(rows), product, payload.attributes)
        && SkuUsed(old(rows), payload.sku)
      ensures r.Err? ==> r.error in {ProductNotFound, AttributesConflict, SkuConflict}
      ensures r.Err? ==> rows == old(rows) && next == old(next)
      ensures var after := old(rows)[old(next) := VariantRow(product, payload.attributes, payload.sku, payload.stock)];
        && (r.Ok? <==> product in products && CombinationsDistinct(after) && SkusUnique(after))
        && (r.Ok? ==> r.value == old(next) && rows == after)
    {
      if product !in products {
        return Err(ProductNotFound);
      }
      var combo := AttributesKey(payload.attributes);
      KeyIdentifies(payload.attributes, map[]);
      if combo != [] {
        KeysMeanUsed(rows, product, payload.attributes);
      }
      CreationRefusedExactly(rows, product, payload, next);
      if combo != [] && combo in KeysOf(rows, product) {
        return Err(AttributesConflict);
      }
      if SkuUsed(rows, payload.sku) {
        return Err(SkuConflict);
      }
      rows := rows[next := RowOf(product, payload)];
      next := next + 1;
      return Ok(next - 1);
    }

    /** create_variants_bulk: the whole lot or nothing, and the whole lot exactly when it fits. */
    method CreateVariantsBulk(product: Id, items: seq<Payload>) returns (r: Result<seq<Id>, VariantError>)
      requires Valid()
      modifies this`rows, this`next
      ensures Valid()
      ensures r.Ok? <==> product in products && LotFits(old(rows), product, items)
      ensures r.Err? ==> rows == old(rows) && next == old(next)
      ensures r.Ok? ==> rows == Inserted(old(rows), product, items, old(next)) && next == old(next) + |items|
      ensures r.Ok? ==> r.value == Positions(old(next), |items|)
      ensures r.Ok? ==> LotAdded(old(rows), product, items, old(next), rows)
      ensures r == Err(SkuConflict) <==>
        product in products && Clean(old(rows), product, items, |items|) && !SkusFree(old(rows), items)
      ensures r.Err? && r.error in {DuplicateSku, AttributesConflict} ==>
        FirstRepeat(old(rows), product, items, r.error)
      ensures r == Err(ProductNotFound) <==> product !in products
      ensures r.Err? ==> r.error in {ProductNotFound, DuplicateSku, AttributesConflict, SkuConflict}
    {
      if product !in products {
        return Err(ProductNotFound);
      }
      var fault := CheckLot(rows, product, items);
      if fault.Some? {
        return Err(fault.value);
      }
      if !SkusFree(rows, items) {
        return Err(SkuConflict);
      }
      LotKeepsDistinct(rows, product, items, next);
      InsertedRows(rows, product, items, next);
      var first := next;
      rows := Inserted(rows, product, items, first);
      next := first + |items|;
      return Ok(Positions(first, |items|));
    }

    /** update_variant: only the other variants' combinations count, and a column not sent stays. */
    method UpdateVariant(product: Id, variant: Id, patch: Patch) returns (r: Result<Id, VariantError>)
      requires Valid()
      modifies this`rows
      ensures Valid()
      ensures r == Err(VariantNotFound) <==> !(variant in old(rows) && old(rows)[variant].product == product)
      ensures r == Err(AttributesConflict) <==>
        && variant in old(rows) && old(rows)[variant].product == product
        && patch.attributes.Some? && CombinationUsed(old(rows) - {variant}, product, patch.attributes.value)
      ensures r.Err? ==> r.error in {VariantNotFound, AttributesConflict, SkuConflict} && rows == old(rows)
      ensures r == Err(SkuConflict) ==> patch.sku.Some? && SkuUsed(old(rows) - {variant}, patch.sku.value)
      ensures r.Ok? ==> variant in rows && rows == old(rows)[variant := rows[variant]]
      ensures r.Ok? ==> variant in rows && Rewritten(old(rows)[variant], patch, rows[variant])
      ensures r.Ok? && patch.sku.Some? ==> !SkuUsed(old(rows) - {variant}, patch.sku.value)
    {
      if !(variant in rows && rows[variant].product == product) {
        return Err(VariantNotFound);
      }
      if patch.attributes.Some? {
        var combo := AttributesKey(patch.attributes.value);
        var others := KeysOf(rows - {variant}, product);
        KeyIdentifies(patch.attributes.value, map[]);
        if combo != [] {
          KeysMeanUsed(rows - {variant}, product, patch.attributes.value);
        }
        if combo != [] && combo in others {
          return Err(AttributesConflict);
        }
      }
      if patch.sku.Some? && SkuUsed(rows - {variant}, patch.sku.value) {
        return Err(SkuConflict);
      }
      PatchRefusedExactly(rows, variant, patch, Patched(rows[variant], patch));
      rows := rows[variant := Patched(rows[variant], patch)];
      return Ok(variant);
    }

    /** A variant that goes away conflicts with nothing. */
    method DeleteVariant(product: Id, variant: Id) returns (r: Result<Id, VariantError>)
      requires Valid()
      modifies this`rows
      ensures Valid()
      ensures r.Ok? <==> variant in old(rows) && old(rows)[variant].product == product
      ensures rows == if r.Ok? then old(rows) - {variant} else old(rows)
    {
      if !(variant in rows && rows[variant].product == product) {
        return Err(VariantNotFound);
      }
      rows := rows - {variant};
      return Ok(variant);
    }
  }

  // ---- The generator and the store together ----

  /** The generator's rows with blank SKUs, which the form sends as null. */
  function BlankLot(combos: seq<Attributes>, stock: nat): (r: seq<Payload>)
    ensures |r| == |combos|
  {
    seq(|combos|, i requires 0 <= i < |combos| => Payload(combos[i], None, stock))
  }

  /** A blank lot repeats a combination exactly when the generator did or the product has it already. */
  lemma BlankLotRepeats(rows: Rows, product: Id, combos: seq<Attributes>, stock: nat, k: nat)
    requires k < |combos|
    ensures var items := BlankLot(combos, stock);
      && !RepeatsSku(items, k)
      && (RepeatsCombination(rows, product, items, k) <==>
            combos[k] != map[] && (CombinationUsed(rows, product, combos[k]) || combos[k] in combos[..k]))
  {
    var items := BlankLot(combos, stock);
    if j :| 0 <= j < k && items[j].attributes == items[k].attributes {
      assert combos[..k][j] == combos[k];
    }
    if combos[k] in combos[..k] {
      var j :| 0 <= j < k && combos[..k][j] == combos[k];
      assert items[j].attributes == items[k].attributes;
    }
  }

  lemma BlankLotFits(rows: Rows, product: Id, combos: seq<Attributes>, stock: nat)
    requires map[] in combos ==> |combos| == 1
    ensures LotFits(rows, product, BlankLot(combos, stock)) <==>
      NoDuplicates(combos) && forall m :: m in combos ==> !CombinationUsed(rows, product, m)
  {
    var items := BlankLot(combos, stock);
    forall k | 0 <= k < |items|
      ensures !RepeatsSku(items, k)
      ensures RepeatsCombination(rows, product, items, k) <==>
        combos[k] != map[] && (CombinationUsed(rows, product, combos[k]) || combos[k] in combos[..k])
    {
      BlankLotRepeats(rows, product, combos, stock, k);
    }
    if LotFits(rows, product, items) {
      forall i, j | 0 <= i < j < |combos| ensures combos[i] != combos[j] {
        assert !RepeatsCombination(rows, product, items, j);
        assert combos[j] in combos && combos[..j][i] == combos[i];
      }
      forall m | m in combos ensures !CombinationUsed(rows, product, m) {
        var k :| 0 <= k < |combos| && combos[k] == m;
        assert !RepeatsCombination(rows, product, items, k);
      }
    }
    if NoDuplicates(combos) && forall m :: m in combos ==> !CombinationUsed(rows, product, m) {
      forall k | 0 <= k < |items| ensures !RepeatsCombination(rows, product, items, k) {
        assert combos[k] in combos;
      }
    }
  }

  /** The product has no variant with one of the choices, the empty one aside. */
  predicate ChoicesFree(rows: Rows, product: Id, axes: seq<Axis>)
  {
    forall i :: i in rows && rows[i].product == product && rows[i].attributes != map[] ==>
      !IsChoice(axes, rows[i].attributes)
  }

  /** Names repeated or not, a generated lot is accepted whole exactly when no axis repeats a value, every
      overwritten axis has a single one, and the product has no variant with one of the choices. */
  lemma GeneratedLotFits(rows: Rows, product: Id, axes: seq<Axis>, stock: nat)
    requires NonEmpty(axes)
    ensures LotFits(rows, product, BlankLot(CartesianProduct(axes), stock)) <==>
      NothingRepeats(axes) && ChoicesFree(rows, product, axes)
  {
    GeneratorIs(axes);
    ProductLength(axes);
    var combos := CartesianProduct(axes);
    assert forall i :: 0 <= i < |axes| ==> axes[i].name in Names(axes);
    assert map[] in combos ==> IsChoice(axes, map[]) && axes == [];
    BlankLotFits(rows, product, combos, stock);
    if forall m :: m in combos ==> !CombinationUsed(rows, product, m) {
      forall i | i in rows && rows[i].product == product && rows[i].attributes != map[]
        ensures !IsChoice(axes, rows[i].attributes)
      {
        assert CombinationUsed(rows, product, rows[i].attributes);
      }
    }
  }

  /** From the picked rows to the stored variants: on a product without variants, what the generator makes of
      any selection is accepted whole exactly when no attribute with several values picked is picked again in
      a later row. */
  lemma PickedRowsFit(rows: Rows, product: Id, picked: seq<Row>, catalogue: seq<Attribute>, stock: nat)
    requires CatalogueUnique(catalogue) && forall i :: 0 <= i < |picked| ==> NoDuplicates(picked[i].values)
    requires forall i :: i in rows ==> rows[i].product != product
    ensures var axes := ResolveMultiRows(picked, catalogue);
      LotFits(rows, product, BlankLot(CartesianProduct(axes), stock)) <==>
        forall i :: 0 <= i < |axes| && NamedAgain(axes, i) ==> |axes[i].values| == 1
    ensures PickedOnce(picked) ==>
      LotFits(rows, product, BlankLot(CartesianProduct(ResolveMultiRows(picked, catalogue)), stock))
  {
    AxesWellFormed(picked, catalogue);
    GeneratedLotFits(rows, product, ResolveMultiRows(picked, catalogue), stock);
    if PickedOnce(picked) {
      RowsGiveDistinctAxes(picked, catalogue);
    }
  }
}
