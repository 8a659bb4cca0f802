/**
 * The decision logic of `UtilConfigItem`: which configured item a permissible item shows
 * (`fromPermissibleItem`, `hasPermission`) and the recursive translation of configured NBT
 * values into tags (`parseNBT`, `parseBasic`). Item building itself (`fromConfigItem`) is only
 * named by the result: which of the two configured items it is built from.
 */
module ConfigItems {
  import opened Wrappers
  import opened JavaStrings

  /** The parts of an `ExtendedConfigItem` the choice reads; `elseEnabled` is `None` when there is no else-item. */
  datatype PermissibleItem = PermissibleItem(
    enabled: bool,
    requiresPermission: bool,
    permission: Option<string>,
    elseEnabled: Option<bool>)

  /** Which configured item `fromConfigItem` is called on. */
  datatype ItemSource = MainItem | ElseItem

  /** `hasPermission`: no permission needed, none named, or "none" in any case; else the platform decides. */
  predicate HasPermission<P>(player: P, item: PermissibleItem, platformHasPermission: (P, string) -> bool) {
    !item.requiresPermission
    || item.permission.None?
    || item.permission.value == ""
    || EqualsIgnoreCase(item.permission.value, "none")
    || platformHasPermission(player, item.permission.value)
  }

  /** `fromPermissibleItem`: `None` is the null item. */
  function FromPermissibleItem<P>(player: P, item: PermissibleItem, platformHasPermission: (P, string) -> bool): (r: Option<ItemSource>)
    ensures !item.enabled ==> r.None?
    ensures item.enabled && HasPermission(player, item, platformHasPermission) ==> r == Some(MainItem)
    ensures item.enabled && !HasPermission(player, item, platformHasPermission) ==>
      (r == Some(ElseItem) <==> item.elseEnabled == Some(true))
    ensures r != Some(MainItem) ==> r.None? || r == Some(ElseItem)
  {
    if !item.enabled then None
    else if HasPermission(player, item, platformHasPermission) then Some(MainItem)
    else if item.elseEnabled.None? || !item.elseEnabled.value then None
    else Some(ElseItem)
  }

  /** A `ConfigItem.NBTValue`: a type name, its data, and its sub-entries in iteration order. */
  datatype NBTValue = NBTValue(ntype: string, data: string, subData: seq<(string, NBTValue)>)

  /** The tags produced; `FloatingTag` stands for the `double`/`float` cases, whose parsing is not modelled. */
  datatype Tag =
    | IntTag(i: int)
    | LongTag(l: int)
    | ByteTag(b: int)
    | ShortTag(s: int)
    | StringTag(text: string)
    | FloatingTag(kind: string, text: string)
    | CompoundTag(entries: map<string, Tag>)
    | ListTag(items: seq<Tag>)

  /** The `NumberFormatException` of a malformed numeric value. */
  datatype NumberFormat = NumberFormat(data: string)

  /**
   * `parseBasic`: the data, with placeholders applied when there are any, parsed by the lower-cased
   * type; "string" and any unknown type give a string tag.
   */
  function ParseBasic<Ph>(v: NBTValue, placeholders: seq<Ph>, handle: (seq<Ph>, string) -> string): (r: Result<Tag, NumberFormat>)
    ensures r.Success? ==> r.value !in {CompoundTag(map[]), ListTag([])}
  {
    var data := if |placeholders| > 0 then handle(placeholders, v.data) else v.data;
    var kind := ToLowerString(v.ntype);
    var number := NumberKindOf(kind);
    if number.Some? then NumberTag(data, number.value.1, number.value.2, number.value.0)
    else if kind == "double" || kind == "float" then Success(FloatingTag(kind, data))
    else Success(StringTag(data))
  }

  datatype NumberKind = IntKind | LongKind | ByteKind | ShortKind

  /** `Integer.parseInt` and its siblings: a failure unless the data is a decimal in range. */
  function NumberTag(data: string, lo: int, hi: int, kind: NumberKind): Result<Tag, NumberFormat> {
    match ParseInteger(data, lo, hi)
    case None => Failure(NumberFormat(data))
    case Some(n) =>
      Success(match kind
        case IntKind => IntTag(n)
        case LongKind => LongTag(n)
        case ByteKind => ByteTag(n)
        case ShortKind => ShortTag(n))
  }

  /** `parseNBT` for one entry: the key is kept; "nbt" builds a compound, "list" a list, anything else a basic tag. */
  function ParseNBT<Ph>(key: string, v: NBTValue, placeholders: seq<Ph>, handle: (seq<Ph>, string) -> string): Result<(string, Tag), NumberFormat>
    decreases v, 1
  {
    if EqualsIgnoreCase(v.ntype, "nbt") then
      var entries :- ParseCompound(v, |v.subData|, placeholders, handle);
      Success((key, CompoundTag(entries)))
    else if EqualsIgnoreCase(v.ntype, "list") then
      var items :- ParseList(v, |v.subData|, placeholders, handle);
      Success((key, ListTag(items)))
    else
      var tag :- ParseBasic(v, placeholders, handle);
      Success((key, tag))
  }

  /** The compound loop over the first `k` sub-entries: each parsed entry is put under its key. */
  function ParseCompound<Ph>(v: NBTValue, k: nat, placeholders: seq<Ph>, handle: (seq<Ph>, string) -> string): Result<map<string, Tag>, NumberFormat>
    requires k <= |v.subData|
    decreases v, 0, k
  {
    if k == 0 then Success(map[])
    else
      var pre :- ParseCompound(v, k - 1, placeholders, handle);
      var parsed :- ParseNBT(v.subData[k - 1].0, v.subData[k - 1].1, placeholders, handle);
      Success(pre[parsed.0 := parsed.1])
  }

  /** The list loop over the first `k` sub-entries: each parsed entry becomes a one-entry compound. */
  function ParseList<Ph>(v: NBTValue, k: nat, placeholders: seq<Ph>, handle: (seq<Ph>, string) -> string): Result<seq<Tag>, NumberFormat>
    requires k <= |v.subData|
    decreases v, 0, k
  {
    if k == 0 then Success([])
    else
      var pre :- ParseList(v, k - 1, placeholders, handle);
      var parsed :- ParseNBT(v.subData[k - 1].0, v.subData[k - 1].1, placeholders, handle);
      Success(pre + [CompoundTag(map[parsed.0 := parsed.1])])
  }

  /** `parseNBT` with its two loops, proved against the functions above. */
  method ParseNBTEntry<Ph>(key: string, v: NBTValue, placeholders: seq<Ph>, handle: (seq<Ph>, string) -> string)
    returns (r: Result<(string, Tag), NumberFormat>)
    ensures r == ParseNBT(key, v, placeholders, handle)
    decreases v, 1
  {
    if EqualsIgnoreCase(v.ntype, "nbt") {
      var compound := FillCompound(v, placeholders, handle);
      if compound.Failure? {
        return Failure(compound.error);
      }
      return Success((key, CompoundTag(compound.value)));
    }
    if EqualsIgnoreCase(v.ntype, "list") {
      var list := FillList(v, placeholders, handle);
      if list.Failure? {
        return Failure(list.error);
      }
      return Success((key, ListTag(list.value)));
    }
    var tag := ParseBasic(v, placeholders, handle);
    if tag.Failure? {
      return Failure(tag.error);
    }
    return Success((key, tag.value));
  }

  /** The "nbt" loop: each sub-entry parsed and put into the compound under its key. */
  method FillCompound<Ph>(v: NBTValue, placeholders: seq<Ph>, handle: (seq<Ph>, string) -> string)
    returns (r: Result<map<string, Tag>, NumberFormat>)
    ensures r == ParseCompound(v, |v.subData|, placeholders, handle)
    decreases v, 0
  {
    var compound: map<string, Tag> := map[];
    var i := 0;
    while i < |v.subData|
      invariant 0 <= i <= |v.subData|
      invariant ParseCompound(v, i, placeholders, handle) == Success(compound)
    {
      var parsed := ParseNBTEntry(v.subData[i].0, v.subData[i].1, placeholders, handle);
      if parsed.Failure? {
        CompoundFailureSticks(v, i + 1, |v.subData|, placeholders, handle);
        return Failure(parsed.error);
      }
      compound := compound[parsed.value.0 := parsed.value.1];
      i := i + 1;
    }
    return Success(compound);
  }

  /** The "list" loop: each sub-entry parsed and added as a one-entry compound. */
  method FillList<Ph>(v: NBTValue, placeholders: seq<Ph>, handle: (seq<Ph>, string) -> string)
    returns (r: Result<seq<Tag>, NumberFormat>)
    ensures r == ParseList(v, |v.subData|, placeholders, handle)
    decreases v, 0
  {
    var list: seq<Tag> := [];
    var i := 0;
    while i < |v.subData|
      invariant 0 <= i <= |v.subData|
      invariant ParseList(v, i, placeholders, handle) == Success(list)
    {
      var parsed := ParseNBTEntry(v.subData[i].0, v.subData[i].1, placeholders, handle);
      if parsed.Failure? {
        ListFailureSticks(v, i + 1, |v.subData|, placeholders, handle);
        return Failure(parsed.error);
      }
      list := list + [CompoundTag(map[parsed.value.0 := parsed.value.1])];
      i := i + 1;
    }
    return Success(list);
  }

  lemma {:induction false} CompoundFailureSticks<Ph>(v: NBTValue, k: nat, j: nat, placeholders: seq<Ph>, handle: (seq<Ph>, string) -> string)
    requires k <= j <= |v.subData| && ParseCompound(v, k, placeholders, handle).Failure?
    ensures ParseCompound(v, j, placeholders, handle) == ParseCompound(v, k, placeholders, handle)
    decreases j
  {
    if j > k {
      CompoundFailureSticks(v, k, j - 1, placeholders, handle);
    }
  }

  lemma {:induction false} ListFailureSticks<Ph>(v: NBTValue, k: nat, j: nat, placeholders: seq<Ph>, handle: (seq<Ph>, string) -> string)
    requires k <= j <= |v.subData| && ParseList(v, k, placeholders, handle).Failure?
    ensures ParseList(v, j, placeholders, handle) == ParseList(v, k, placeholders, handle)
    decreases j
  {
    if j > k {
      ListFailureSticks(v, k, j - 1, placeholders, handle);
    }
  }

  /** The returned key is always the entry's own key. */
  lemma ParseNBTKeepsKey<Ph>(key: string, v: NBTValue, placeholders: seq<Ph>, handle: (seq<Ph>, string) -> string)
    ensures ParseNBT(key, v, placeholders, handle).Success? ==> ParseNBT(key, v, placeholders, handle).value.0 == key
  {
  }

  /**
   * An "nbt" entry whose sub-entries have distinct keys parses to a compound that holds, under
   * each sub-key, exactly that sub-entry's parse.
   */
  lemma {:induction false} CompoundHoldsEachSubEntry<Ph>(v: NBTValue, k: nat, placeholders: seq<Ph>, handle: (seq<Ph>, string) -> string)
    requires k <= |v.subData|
    requires forall i, j | 0 <= i < j < |v.subData| :: v.subData[i].0 != v.subData[j].0
    requires ParseCompound(v, k, placeholders, handle).Success?
    ensures var c := ParseCompound(v, k, placeholders, handle).value;
      (forall key :: key in c <==> exists i | 0 <= i < k :: v.subData[i].0 == key) &&
      forall i | 0 <= i < k ::
        ParseNBT(v.subData[i].0, v.subData[i].1, placeholders, handle) == Success((v.subData[i].0, c[v.subData[i].0]))
    decreases k
  {
    if k > 0 {
      var last := v.subData[k - 1];
      var prior := ParseCompound(v, k - 1, placeholders, handle);
      var parsed := ParseNBT(last.0, last.1, placeholders, handle);
      assert prior.Success? && parsed.Success?;
      CompoundHoldsEachSubEntry(v, k - 1, placeholders, handle);
      ParseNBTKeepsKey(last.0, last.1, placeholders, handle);
      var c := ParseCompound(v, k, placeholders, handle).value;
      assert c == prior.value[last.0 := parsed.value.1];
      forall i | 0 <= i < k - 1
        ensures ParseNBT(v.subData[i].0, v.subData[i].1, placeholders, handle) == Success((v.subData[i].0, c[v.subData[i].0]))
      {
        assert v.subData[i].0 != last.0;
      }
    }
  }

  /** A "list" entry parses to one single-entry compound `{subKey: parsed}` per sub-entry, in order. */
  lemma {:induction false} ListWrapsEachSubEntry<Ph>(v: NBTValue, k: nat, placeholders: seq<Ph>, handle: (seq<Ph>, string) -> string)
    requires k <= |v.subData|
    requires ParseList(v, k, placeholders, handle).Success?
    ensures var items := ParseList(v, k, placeholders, handle).value;
      |items| == k &&
      forall i | 0 <= i < k ::
        ParseNBT(v.subData[i].0, v.subData[i].1, placeholders, handle).Success? &&
        items[i] == CompoundTag(map[v.subData[i].0 := ParseNBT(v.subData[i].0, v.subData[i].1, placeholders, handle).value.1])
    decreases k
  {
    if k > 0 {
      ListWrapsEachSubEntry(v, k - 1, placeholders, handle);
      ParseNBTKeepsKey(v.subData[k - 1].0, v.subData[k - 1].1, placeholders, handle);
      var items := ParseList(v, k, placeholders, handle).value;
      assert items[..k - 1] == ParseList(v, k - 1, placeholders, handle).value;
    }
  }

  /** The type selects the tag: NBT builds a compound, LIST a list, in any case; the rest is basic. */
  lemma ParseNBTDispatch<Ph>(key: string, v: NBTValue, placeholders: seq<Ph>, handle: (seq<Ph>, string) -> string)
    ensures EqualsIgnoreCase(v.ntype, "nbt") && ParseNBT(key, v, placeholders, handle).Success? ==>
      ParseNBT(key, v, placeholders, handle).value.1.CompoundTag?
    ensures EqualsIgnoreCase(v.ntype, "list") && !EqualsIgnoreCase(v.ntype, "nbt") && ParseNBT(key, v, placeholders, handle).Success? ==>
      ParseNBT(key, v, placeholders, handle).value.1.ListTag?
    ensures !EqualsIgnoreCase(v.ntype, "nbt") && !EqualsIgnoreCase(v.ntype, "list") ==>
      var basic := ParseBasic(v, placeholders, handle);
      ParseNBT(key, v, placeholders, handle) == if basic.Success? then Success((key, basic.value)) else Failure(basic.error)
    ensures ParseNBT("k", NBTValue("NBT", "", []), placeholders, handle) == Success(("k", CompoundTag(map[])))
  {
  }

  /** The lower-cased type names `parseBasic` parses as whole numbers, with their ranges and tags. */
  function NumberKindOf(kind: string): Option<(NumberKind, int, int)> {
    if kind == "int" || kind == "integer" then Some((IntKind, INT_MIN, INT_MAX))
    else if kind == "long" then Some((LongKind, LONG_MIN, LONG_MAX))
    else if kind == "byte" then Some((ByteKind, BYTE_MIN, BYTE_MAX))
    else if kind == "short" then Some((ShortKind, SHORT_MIN, SHORT_MAX))
    else None
  }

  /** A number printed in decimal and in range parses back into the tag of its type, in any case of the type name. */
  lemma ParseBasicRoundTrip<Ph>(ntype: string, n: int, handle: (seq<Ph>, string) -> string)
    requires NumberKindOf(ToLowerString(ntype)).Some?
    requires NumberKindOf(ToLowerString(ntype)).value.1 <= n <= NumberKindOf(ToLowerString(ntype)).value.2
    ensures ParseBasic(NBTValue(ntype, DecimalString(n), []), [], handle).Success?
    ensures var tag := ParseBasic(NBTValue(ntype, DecimalString(n), []), [], handle).value;
      match NumberKindOf(ToLowerString(ntype)).value.0
      case IntKind => tag == IntTag(n)
      case LongKind => tag == LongTag(n)
      case ByteKind => tag == ByteTag(n)
      case ShortKind => tag == ShortTag(n)
  {
    var range := NumberKindOf(ToLowerString(ntype)).value;
    DecimalStringRoundTrip(n, range.1, range.2);
  }

  /**
   * Numeric data that is empty, is not digits after an optional sign, or is a decimal outside
   * the type's range is a `NumberFormatException`.
   */
  lemma ParseBasicMalformed<Ph>(v: NBTValue, handle: (seq<Ph>, string) -> string)
    requires NumberKindOf(ToLowerString(v.ntype)).Some?
    ensures var d := v.data;
      |d| == 0 ==> ParseBasic(v, [], handle) == Failure(NumberFormat(d))
    ensures var d := v.data;
      |d| > 0 && d[0] != '-' && d[0] != '+' && !AllDigits(d) ==> ParseBasic(v, [], handle) == Failure(NumberFormat(d))
    ensures var d := v.data;
      |d| > 0 && (d[0] == '-' || d[0] == '+') && (|d| == 1 || !AllDigits(d[1..])) ==> ParseBasic(v, [], handle) == Failure(NumberFormat(d))
    ensures var d, range := v.data, NumberKindOf(ToLowerString(v.ntype)).value;
      |d| > 0 && AllDigits(d) && !(range.1 <= DigitsValue(d) <= range.2) ==> ParseBasic(v, [], handle) == Failure(NumberFormat(d))
    ensures var d, range := v.data, NumberKindOf(ToLowerString(v.ntype)).value;
      |d| > 1 && d[0] == '-' && AllDigits(d[1..]) && !(range.1 <= -(DigitsValue(d[1..]) as int) <= range.2) ==> ParseBasic(v, [], handle) == Failure(NumberFormat(d))
    ensures var d, range := v.data, NumberKindOf(ToLowerString(v.ntype)).value;
      |d| > 1 && d[0] == '+' && AllDigits(d[1..]) && !(range.1 <= DigitsValue(d[1..]) <= range.2) ==> ParseBasic(v, [], handle) == Failure(NumberFormat(d))
  {
  }

  /** A byte outside -128..127 does not fit. */
  lemma ByteOutOfRange<Ph>(handle: (seq<Ph>, string) -> string)
    ensures ParseBasic(NBTValue("Byte", "128", []), [], handle) == Failure(NumberFormat("128"))
  {
    assert ToLowerString("Byte") == "byte";
    assert DigitsValue("128") == 128 by {
      assert "128"[..2] == "12";
      assert "12"[..1] == "1";
      assert "1"[..0] == "";
    }
  }

  /** "string" and every unknown type keep the data as text and never fail. */
  lemma ParseBasicText<Ph>(v: NBTValue, handle: (seq<Ph>, string) -> string)
    requires NumberKindOf(ToLowerString(v.ntype)).None?
    requires ToLowerString(v.ntype) != "double" && ToLowerString(v.ntype) != "float"
    ensures ParseBasic(v, [], handle) == Success(StringTag(v.data))
  {
  }

  /** Placeholders are applied to the data only when there are any. */
  lemma ParseBasicPlaceholders<Ph>(v: NBTValue, placeholders: seq<Ph>, handle: (seq<Ph>, string) -> string)
    requires NumberKindOf(ToLowerString(v.ntype)).None?
    requires ToLowerString(v.ntype) != "double" && ToLowerString(v.ntype) != "float"
    ensures |placeholders| == 0 ==> ParseBasic(v, placeholders, handle) == Success(StringTag(v.data))
    ensures |placeholders| > 0 ==> ParseBasic(v, placeholders, handle) == Success(StringTag(handle(placeholders, v.data)))
  {
  }
}
