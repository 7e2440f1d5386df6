/**
  Template decoding of node fields (src/orcheo/nodes/base.py). Decoding is copy-on-write: the
  same object comes back when nothing in it had to be resolved. What a template or a
  credential resolves to is a parameter; identity of objects is represented by whether a
  result says it kept its argument.
 */
module TemplateModel {
  import opened Common

  datatype ItemsKind = ListKind | TupleKind | SetKind | FrozenSetKind
  datatype FieldsKind = ModelKind | MappingKind

  datatype Value =
    | Plain(n: int)
    | Text(text: string)
    | Credential(id: nat)
    | Items(kind: ItemsKind, items: seq<Value>)
    | Fields(shape: FieldsKind, entries: seq<Entry>)

  datatype Entry = Entry(key: string, value: Value)

  /** What resolving a leaf gives: nothing to do, a value, or an exception. */
  datatype Leaf = Same | New(value: Value) | Broken

  /** The workflow state and the active resolver, as seen by leaves; and which values can be set members. */
  datatype Env = Env(text: string -> Leaf, credential: nat -> Option<Value>, hashable: Value -> bool)

  /** The result of copy-on-write decoding: the same object, another one, or an exception. */
  datatype Cow = Kept | Made(value: Value) | Raised

  /** The object a caller of copy-on-write decoding holds afterwards. */
  function Held(c: Cow, original: Value): Option<Value> {
    match c
    case Kept => Some(original)
    case Made(v) => Some(v)
    case Raised => None
  }

  // ---------------------------------------------------------------- sets

  /** `set(items)` keeps the first of equal items, and raises on an item that cannot be hashed. */
  function Distinct(items: seq<Value>): seq<Value>
    decreases |items|
  {
    if items == [] then []
    else
      var rest := Distinct(items[..|items| - 1]);
      if items[|items| - 1] in rest then rest else rest + [items[|items| - 1]]
  }

  predicate AllHashable(env: Env, items: seq<Value>) { forall i :: 0 <= i < |items| ==> env.hashable(items[i]) }

  /** A new container of the given kind. */
  function Build(env: Env, kind: ItemsKind, items: seq<Value>): Option<Value> {
    if kind.ListKind? || kind.TupleKind? then Some(Items(kind, items))
    else if AllHashable(env, items) then Some(Items(kind, Distinct(items)))
    else None
  }

  ghost predicate NoRepeats(items: seq<Value>) { forall i, j :: 0 <= i < j < |items| ==> items[i] != items[j] }

  /** What Python guarantees of a value: a set holds hashable items, none twice. */
  ghost predicate WellFormed(env: Env, v: Value)
    decreases v
  {
    match v
    case Items(kind, items) =>
      && (forall i :: 0 <= i < |items| ==> WellFormed(env, items[i]))
      && (kind.SetKind? || kind.FrozenSetKind? ==> NoRepeats(items) && AllHashable(env, items))
    case Fields(_, entries) => forall i :: 0 <= i < |entries| ==> WellFormed(env, entries[i].value)
    case _ => true
  }

  // ---------------------------------------------------------------- the simple form: rebuild everything

  function Rebuilt(env: Env, v: Value): Option<Value>
    decreases v, 1
  {
    match v
    case Plain(_) => Some(v)
    case Text(text) => (match env.text(text) case Same => Some(v) case New(x) => Some(x) case Broken => None)
    case Credential(id) => env.credential(id)
    case Items(kind, items) =>
      (match RebuiltItems(env, v, 0)
       case None => None
       case Some(parts) => Build(env, kind, parts))
    case Fields(shape, entries) =>
      match RebuiltFields(env, v, 0)
      case None => None
      case Some(parts) => Some(Fields(shape, parts))
  }

  function RebuiltItems(env: Env, v: Value, i: nat): Option<seq<Value>>
    requires v.Items? && i <= |v.items|
    decreases v, 0, |v.items| - i
  {
    if i == |v.items| then Some([])
    else match Rebuilt(env, v.items[i])
      case None => None
      case Some(x) =>
        match RebuiltItems(env, v, i + 1)
        case None => None
        case Some(rest) => Some([x] + rest)
  }

  function RebuiltFields(env: Env, v: Value, i: nat): Option<seq<Entry>>
    requires v.Fields? && i <= |v.entries|
    decreases v, 0, |v.entries| - i
  {
    if i == |v.entries| then Some([])
    else match Rebuilt(env, v.entries[i].value)
      case None => None
      case Some(x) =>
        match RebuiltFields(env, v, i + 1)
        case None => None
        case Some(rest) => Some([Entry(v.entries[i].key, x)] + rest)
  }

  // ---------------------------------------------------------------- the fast form: copy on write

  /** A loop's state: the new parts so far and whether any differs from its original. */
  datatype Parts<T> = Parts(parts: seq<T>, changed: bool) | Stopped

  function Decode(env: Env, v: Value): Cow
    decreases v, 1
  {
    match v
    case Plain(_) => Kept
    case Text(text) => (match env.text(text) case Same => Kept case New(x) => Made(x) case Broken => Raised)
    case Credential(id) => (match env.credential(id) case None => Raised case Some(x) => Made(x))
    case Items(kind, items) =>
      (match DecodeItems(env, v, 0)
       case Stopped => Raised
       case Parts(parts, changed) =>
         if !changed then Kept
         else match Build(env, kind, parts)
           case None => Raised
           case Some(x) => Made(x))
    case Fields(shape, entries) =>
      match DecodeFields(env, v, 0)
      case Stopped => Raised
      case Parts(parts, changed) => if changed then Made(Fields(shape, parts)) else Kept
  }

  function DecodeItems(env: Env, v: Value, i: nat): Parts<Value>
    requires v.Items? && i <= |v.items|
    decreases v, 0, |v.items| - i
  {
    if i == |v.items| then Parts([], false)
    else match Held(Decode(env, v.items[i]), v.items[i])
      case None => Stopped
      case Some(x) =>
        match DecodeItems(env, v, i + 1)
        case Stopped => Stopped
        case Parts(rest, changed) => Parts([x] + rest, changed || !Decode(env, v.items[i]).Kept?)
  }

  function DecodeFields(env: Env, v: Value, i: nat): Parts<Entry>
    requires v.Fields? && i <= |v.entries|
    decreases v, 0, |v.entries| - i
  {
    if i == |v.entries| then Parts([], false)
    else match Held(Decode(env, v.entries[i].value), v.entries[i].value)
      case None => Stopped
      case Some(x) =>
        match DecodeFields(env, v, i + 1)
        case Stopped => Stopped
        case Parts(rest, changed) =>
          Parts([Entry(v.entries[i].key, x)] + rest, changed || !Decode(env, v.entries[i].value).Kept?)
  }

  // ---------------------------------------------------------------- the fast form refines the simple one

  lemma {:induction false} DistinctKeeps(items: seq<Value>)
    requires NoRepeats(items)
    ensures Distinct(items) == items
    decreases |items|
  {
    if items != [] {
      var front, last := items[..|items| - 1], items[|items| - 1];
      DistinctKeeps(front);
      assert items == front + [last];
      assert last !in front;
    }
  }

  /** Does a copy-on-write loop agree with a rebuilding one over the same originals? */
  predicate Matches<T(==)>(p: Parts<T>, rebuilt: Option<seq<T>>, originals: seq<T>) {
    match p
    case Stopped => rebuilt.None?
    case Parts(parts, changed) => rebuilt == Some(parts) && (!changed ==> parts == originals)
  }

  /**
    Copy-on-write decoding yields, for every value, exactly what rebuilding everything
    yields, exceptions included; and "same object" means that rebuilding would have produced
    an equal one.
   */
  lemma {:induction false} DecodeRefinesRebuild(env: Env, v: Value)
    requires WellFormed(env, v)
    ensures Held(Decode(env, v), v) == Rebuilt(env, v)
    decreases v, 1
  {
    match v
    case Items(kind, items) =>
      ItemsRefine(env, v, 0);
      assert items[0..] == items;
      if kind.SetKind? || kind.FrozenSetKind? { DistinctKeeps(items); }
      hide Distinct, RebuiltItems, DecodeItems, AllHashable;
    case Fields(shape, entries) =>
      FieldsRefine(env, v, 0);
      assert entries[0..] == entries;
      hide RebuiltFields, DecodeFields;
    case _ =>
  }

  lemma {:induction false} ItemsRefine(env: Env, v: Value, i: nat)
    requires v.Items? && i <= |v.items| && WellFormed(env, v)
    ensures Matches(DecodeItems(env, v, i), RebuiltItems(env, v, i), v.items[i..])
    decreases v, 0, |v.items| - i
  {
    if i < |v.items| {
      DecodeRefinesRebuild(env, v.items[i]);
      ItemsRefine(env, v, i + 1);
      hide Decode, Rebuilt, WellFormed;
      assert v.items[i..] == [v.items[i]] + v.items[i + 1..];
    }
  }

  lemma {:induction false} FieldsRefine(env: Env, v: Value, i: nat)
    requires v.Fields? && i <= |v.entries| && WellFormed(env, v)
    ensures Matches(DecodeFields(env, v, i), RebuiltFields(env, v, i), v.entries[i..])
    decreases v, 0, |v.entries| - i
  {
    if i < |v.entries| {
      DecodeRefinesRebuild(env, v.entries[i].value);
      FieldsRefine(env, v, i + 1);
      hide Decode, Rebuilt, WellFormed;
      assert v.entries[i..] == [v.entries[i]] + v.entries[i + 1..];
      assert v.entries[i] == Entry(v.entries[i].key, v.entries[i].value);
    }
  }

  // ---------------------------------------------------------------- a runnable's fields

  type Dict = map<string, Value>

  const AI_MODEL := "ai_model"

  predicate Decodable(env: Env, fields: Dict) { forall k :: k in fields ==> !Decode(env, fields[k]).Raised? }

  function DecodedField(env: Env, v: Value): Value
    requires !Decode(env, v).Raised?
  {
    Held(Decode(env, v), v).value
  }

  /** Every field, decoded. */
  function DecodedAll(env: Env, fields: Dict): Dict
    requires Decodable(env, fields)
  {
    map k | k in fields :: DecodedField(env, fields[k])
  }

  /** Only the fields whose decoding made another object. */
  function ChangedOnly(env: Env, fields: Dict): Dict
    requires Decodable(env, fields)
  {
    map k | k in fields && !Decode(env, fields[k]).Kept? :: DecodedField(env, fields[k])
  }

  /** The model chosen for this run, unless the field already holds it. */
  function RunUpdates(fields: Dict, selected: Option<string>): Dict {
    if AI_MODEL !in fields || selected.None? || selected.value == "" || fields[AI_MODEL] == Text(selected.value) then map[]
    else map[AI_MODEL := Text(selected.value)]
  }

  /** `decode_variables`: the run updates look at the fields after decoding. */
  function InPlace(env: Env, fields: Dict, selected: Option<string>): Dict
    requires Decodable(env, fields)
  {
    DecodedAll(env, fields) + RunUpdates(DecodedAll(env, fields), selected)
  }

  /** `resolved_for_run`: the run updates look at the fields before decoding. */
  function Copied(env: Env, fields: Dict, selected: Option<string>): Dict
    requires Decodable(env, fields)
  {
    fields + (ChangedOnly(env, fields) + RunUpdates(fields, selected))
  }

  /** Overlaying only the changed fields equals overlaying all decoded fields. */
  lemma OverlayChangedIsOverlayAll(env: Env, fields: Dict)
    requires Decodable(env, fields)
    ensures fields + ChangedOnly(env, fields) == DecodedAll(env, fields)
    ensures fields + DecodedAll(env, fields) == DecodedAll(env, fields)
  {
    hide Decode;
  }

  /** The field already named the selected model, but as a template that decodes to another one. */
  predicate ModelDecodesAway(env: Env, fields: Dict, selected: Option<string>)
    requires Decodable(env, fields)
  {
    && AI_MODEL in fields && selected.Some? && selected.value != ""
    && fields[AI_MODEL] == Text(selected.value) && DecodedField(env, fields[AI_MODEL]) != Text(selected.value)
  }

  /** A resolved copy has the same fields as in-place decoding, except exactly in that case, where only the model differs. */
  lemma CopyEqualsInPlace(env: Env, fields: Dict, selected: Option<string>)
    requires Decodable(env, fields)
    ensures Copied(env, fields, selected) == InPlace(env, fields, selected) <==> !ModelDecodesAway(env, fields, selected)
    ensures forall k :: k in fields && k != AI_MODEL ==>
              k in Copied(env, fields, selected) && k in InPlace(env, fields, selected)
              && Copied(env, fields, selected)[k] == InPlace(env, fields, selected)[k]
  {
    OverlayChangedIsOverlayAll(env, fields);
    var decoded := DecodedAll(env, fields);
    assert Copied(env, fields, selected) == decoded + RunUpdates(fields, selected);
    hide Decode, ChangedOnly, Copied;
    if AI_MODEL in fields {
      assert decoded[AI_MODEL] == DecodedField(env, fields[AI_MODEL]);
      if ModelDecodesAway(env, fields, selected) {
        assert (decoded + RunUpdates(fields, selected))[AI_MODEL] != InPlace(env, fields, selected)[AI_MODEL];
      } else {
        assert decoded + RunUpdates(fields, selected) == InPlace(env, fields, selected);
      }
    }
  }

  /**
    The case exists: when the run selects, as its model, the template the field already holds,
    the copy gets the model the template names and in-place decoding gets the template itself.
   */
  lemma TemplateSelectedAsModel(env: Env, template: string, model: string)
    requires template != "" && model != template && env.text(template) == New(Text(model))
    ensures var fields: Dict := map[AI_MODEL := Text(template)];
            && Decodable(env, fields) && ModelDecodesAway(env, fields, Some(template))
            && Copied(env, fields, Some(template)) == map[AI_MODEL := Text(model)]
            && InPlace(env, fields, Some(template)) == fields
  {
    var fields: Dict := map[AI_MODEL := Text(template)];
    assert Decode(env, fields[AI_MODEL]) == Made(Text(model));
    hide Decode;
    assert DecodedAll(env, fields) == map[AI_MODEL := Text(model)];
    assert ChangedOnly(env, fields) == map[AI_MODEL := Text(model)];
    assert RunUpdates(fields, Some(template)) == map[];
  }
}

/** The runnable, with the loops of the source. */
module TemplateDecoding {
  import opened Common
  import opened TemplateModel

  /** The outcome of a whole copy-on-write loop, given its state after some parts and what the rest gives. */
  function Joined<T>(done: seq<T>, changed: bool, rest: Parts<T>): Parts<T> {
    match rest
    case Stopped => Stopped
    case Parts(parts, more) => Parts(done + parts, changed || more)
  }

  lemma ItemsStep(env: Env, v: Value, i: nat, done: seq<Value>, changed: bool)
    requires v.Items? && i < |v.items| && DecodeItems(env, v, 0) == Joined(done, changed, DecodeItems(env, v, i))
    ensures match Decode(env, v.items[i])
            case Raised => DecodeItems(env, v, 0).Stopped?
            case Kept => DecodeItems(env, v, 0) == Joined(done + [v.items[i]], changed, DecodeItems(env, v, i + 1))
            case Made(x) => DecodeItems(env, v, 0) == Joined(done + [x], true, DecodeItems(env, v, i + 1))
  {
    hide Decode;
    if DecodeItems(env, v, i + 1).Parts? && !Decode(env, v.items[i]).Raised? {
      var x, rest := Held(Decode(env, v.items[i]), v.items[i]).value, DecodeItems(env, v, i + 1).parts;
      assert done + ([x] + rest) == (done + [x]) + rest;
    }
  }

  lemma FieldsStep(env: Env, v: Value, i: nat, done: seq<Entry>, changed: bool)
    requires v.Fields? && i < |v.entries| && DecodeFields(env, v, 0) == Joined(done, changed, DecodeFields(env, v, i))
    ensures match Decode(env, v.entries[i].value)
            case Raised => DecodeFields(env, v, 0).Stopped?
            case Kept =>
              DecodeFields(env, v, 0) == Joined(done + [Entry(v.entries[i].key, v.entries[i].value)], changed, DecodeFields(env, v, i + 1))
            case Made(x) => DecodeFields(env, v, 0) == Joined(done + [Entry(v.entries[i].key, x)], true, DecodeFields(env, v, i + 1))
  {
    hide Decode;
    if DecodeFields(env, v, i + 1).Parts? && !Decode(env, v.entries[i].value).Raised? {
      var x := Entry(v.entries[i].key, Held(Decode(env, v.entries[i].value), v.entries[i].value).value);
      var rest := DecodeFields(env, v, i + 1).parts;
      assert done + ([x] + rest) == (done + [x]) + rest;
    }
  }

  lemma NothingDone<T>(whole: Parts<T>)
    ensures whole == Joined([], false, whole)
  {
    if whole.Parts? { assert [] + whole.parts == whole.parts; }
  }

  method DecodeValue(env: Env, v: Value) returns (c: Cow)
    ensures c == Decode(env, v)
    decreases v, 1
  {
    match v {
      case Plain(_) =>
        c := Kept;
      case Text(text) =>
        var leaf := env.text(text);
        c := match leaf case Same => Kept case New(x) => Made(x) case Broken => Raised;
      case Credential(id) =>
        var resolved := env.credential(id);
        c := if resolved.None? then Raised else Made(resolved.value);
      case Items(_, _) =>
        c := DecodeItemsLoop(env, v);
      case Fields(_, _) =>
        c := DecodeFieldsLoop(env, v);
    }
  }

  method DecodeItemsLoop(env: Env, v: Value) returns (c: Cow)
    requires v.Items?
    ensures c == Decode(env, v)
    decreases v, 0
  {
    var newItems: seq<Value> := [];
    var anyChanged := false;
    NothingDone(DecodeItems(env, v, 0));
    var i := 0;
    while i < |v.items|
      invariant 0 <= i <= |v.items|
      invariant DecodeItems(env, v, 0) == Joined(newItems, anyChanged, DecodeItems(env, v, i))
    {
      ItemsStep(env, v, i, newItems, anyChanged);
      var decoded := DecodeValue(env, v.items[i]);
      if decoded.Raised? { return Raised; }
      newItems := newItems + [if decoded.Kept? then v.items[i] else decoded.value];
      if !decoded.Kept? { anyChanged := true; }
      i := i + 1;
    }
    assert newItems + [] == newItems;
    if !anyChanged { return Kept; }
    var built := Build(env, v.kind, newItems);
    c := if built.None? then Raised else Made(built.value);
  }

  method DecodeFieldsLoop(env: Env, v: Value) returns (c: Cow)
    requires v.Fields?
    ensures c == Decode(env, v)
    decreases v, 0
  {
    var newEntries: seq<Entry> := [];
    var anyChanged := false;
    NothingDone(DecodeFields(env, v, 0));
    var i := 0;
    while i < |v.entries|
      invariant 0 <= i <= |v.entries|
      invariant DecodeFields(env, v, 0) == Joined(newEntries, anyChanged, DecodeFields(env, v, i))
    {
      FieldsStep(env, v, i, newEntries, anyChanged);
      var entry := v.entries[i];
      var decoded := DecodeValue(env, entry.value);
      if decoded.Raised? { return Raised; }
      newEntries := newEntries + [Entry(entry.key, if decoded.Kept? then entry.value else decoded.value)];
      if !decoded.Kept? { anyChanged := true; }
      i := i + 1;
    }
    assert newEntries + [] == newEntries;
    c := if anyChanged then Made(Fields(v.shape, newEntries)) else Kept;
  }

  class Runnable {
    var fields: Dict

    constructor (fields: Dict)
      ensures this.fields == fields
    {
      this.fields := fields;
    }

    /** `_decoded_updates` and `_compute_run_updates` together: all decoded fields, and the changed ones; false if one raises. */
    method DecodeAll(env: Env) returns (ok: bool, decoded: Dict, changed: Dict)
      ensures ok <==> Decodable(env, fields)
      ensures ok ==> decoded == DecodedAll(env, fields) && changed == ChangedOnly(env, fields)
    {
      decoded, changed := map[], map[];
      var todo := fields.Keys;
      while todo != {}
        invariant todo <= fields.Keys
        invariant forall k :: k in fields && k !in todo ==> !Decode(env, fields[k]).Raised?
        invariant decoded.Keys == fields.Keys - todo
        invariant forall k :: k in decoded ==> decoded[k] == DecodedField(env, fields[k])
        invariant forall k :: k in changed <==> k in fields && k !in todo && !Decode(env, fields[k]).Kept?
        invariant forall k :: k in changed ==> changed[k] == decoded[k]
        decreases todo
      {
        hide Decode;
        var k :| k in todo;
        todo := todo - {k};
        var result := DecodeValue(env, fields[k]);
        if result.Raised? { return false, map[], map[]; }
        decoded := decoded[k := if result.Kept? then fields[k] else result.value];
        if !result.Kept? { changed := changed[k := result.value]; }
      }
      ok := true;
    }

    /** `decode_variables`: overlay everything, then the run updates; nothing is stored if a field raises. */
    method DecodeVariables(env: Env, selected: Option<string>) returns (ok: bool)
      modifies this
      ensures ok <==> Decodable(env, old(fields))
      ensures fields == if ok then InPlace(env, old(fields), selected) else old(fields)
    {
      var decoded, changed;
      ok, decoded, changed := DecodeAll(env);
      if !ok { return; }
      OverlayChangedIsOverlayAll(env, fields);
      fields := fields + decoded;
      fields := fields + RunUpdates(fields, selected);
    }

    /** `resolved_for_run`: this object if nothing changes, otherwise a new one; this object is never written. */
    method ResolvedForRun(env: Env, selected: Option<string>) returns (ok: bool, copy: Runnable)
      ensures ok <==> Decodable(env, fields)
      ensures ok ==> copy.fields == Copied(env, fields, selected)
      ensures copy == this || fresh(copy)
      ensures ok ==> (copy == this <==> ChangedOnly(env, fields) + RunUpdates(fields, selected) == map[])
      ensures fields == old(fields)
    {
      var decoded, changed;
      ok, decoded, changed := DecodeAll(env);
      copy := this;
      if !ok { return; }
      changed := changed + RunUpdates(fields, selected);
      if changed != map[] {
        copy := new Runnable(fields + changed);
      } else {
        assert fields + changed == fields;
      }
    }
  }
}
