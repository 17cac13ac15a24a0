/** The strict JSON decoder in front of provider responses, over the token stream of the text. */
module JsonDecoder {
  import opened Basics

  datatype Token = BeginObject | EndObject | BeginArray | EndArray | Str(text: string) | Num(digits: string) | Bool(b: bool) | Null

  datatype Value = Object(fields: map<string, Value>) | Array(items: seq<Value>) | Scalar(token: Token)

  const MAX_DEPTH := 64

  const RESERVED := {"data", "errors", "code", "message", "authority", "ref_id", "fee", "fee_type", "card_hash",
                     "card_pan", "validations"}

  // ----- decoding, as a recursion on the tokens left

  predicate KeyAllowed(key: string, seen: set<string>, lower: string -> string) {
    lower(key) !in seen && (lower(key) in RESERVED ==> key == lower(key))
  }

  function Decode(ts: seq<Token>, depth: nat, lower: string -> string): (r: Option<(Value, seq<Token>)>)
    ensures r.Some? ==> |r.value.1| < |ts|
    decreases |ts|, 1
  {
    if depth > MAX_DEPTH || ts == [] then None
    else
      match ts[0]
      case BeginObject =>
        (match DecodeFields(ts[1..], depth, map[], {}, lower)
         case None => None
         case Some((fields, rest)) => Some((Object(fields), rest)))
      case BeginArray =>
        (match DecodeItems(ts[1..], depth, [], lower)
         case None => None
         case Some((items, rest)) => Some((Array(items), rest)))
      case EndObject => None
      case EndArray => None
      case t => Some((Scalar(t), ts[1..]))
  }

  function DecodeFields(ts: seq<Token>, depth: nat, fields: map<string, Value>, seen: set<string>, lower: string -> string)
    : (r: Option<(map<string, Value>, seq<Token>)>)
    ensures r.Some? ==> |r.value.1| < |ts|
    decreases |ts|, 0
  {
    if ts == [] then None
    else if ts[0] == EndObject then Some((fields, ts[1..]))
    else if !ts[0].Str? || !KeyAllowed(ts[0].text, seen, lower) then None
    else
      match Decode(ts[1..], depth + 1, lower)
      case None => None
      case Some((v, rest)) =>
        DecodeFields(rest, depth, fields[ts[0].text := v], seen + {lower(ts[0].text)}, lower)
  }

  function DecodeItems(ts: seq<Token>, depth: nat, items: seq<Value>, lower: string -> string)
    : (r: Option<(seq<Value>, seq<Token>)>)
    ensures r.Some? ==> |r.value.1| < |ts|
    decreases |ts|, 2
  {
    if ts == [] || ts[0] == EndObject then None
    else if ts[0] == EndArray then Some((items, ts[1..]))
    else
      match Decode(ts, depth + 1, lower)
      case None => None
      case Some((v, rest)) => DecodeItems(rest, depth, items + [v], lower)
  }

  // ----- documents and their printing

  /** A JSON document as written: fields in order, duplicates and all. */
  datatype Tree = Leaf(token: Token) | Arr(items: Trees) | Obj(fields: Fields)
  datatype Trees = NoItems | MoreItems(head: Tree, tail: Trees)
  datatype Fields = NoFields | MoreFields(key: string, value: Tree, rest: Fields)

  predicate IsScalar(t: Token) {
    t.Str? || t.Num? || t.Bool? || t.Null?
  }

  predicate WellFormed(t: Tree) {
    match t
    case Leaf(token) => IsScalar(token)
    case Arr(items) => WellFormedItems(items)
    case Obj(fields) => WellFormedFields(fields)
  }

  predicate WellFormedItems(items: Trees) {
    items.MoreItems? ==> WellFormed(items.head) && WellFormedItems(items.tail)
  }

  predicate WellFormedFields(fields: Fields) {
    fields.MoreFields? ==> WellFormed(fields.value) && WellFormedFields(fields.rest)
  }

  function Print(t: Tree): seq<Token> {
    match t
    case Leaf(token) => [token]
    case Arr(items) => [BeginArray] + PrintItems(items)
    case Obj(fields) => [BeginObject] + PrintFields(fields)
  }

  function PrintItems(items: Trees): seq<Token> {
    match items
    case NoItems => [EndArray]
    case MoreItems(head, tail) => Print(head) + PrintItems(tail)
  }

  function PrintFields(fields: Fields): seq<Token> {
    match fields
    case NoFields => [EndObject]
    case MoreFields(key, value, rest) => [Str(key)] + Print(value) + PrintFields(rest)
  }

  /** What a document means when nothing is wrong with it. */
  function Meaning(t: Tree): Value {
    match t
    case Leaf(token) => Scalar(token)
    case Arr(items) => Array(ItemsMeaning(items, []))
    case Obj(fields) => Object(FieldsMeaning(fields, map[]))
  }

  function ItemsMeaning(items: Trees, before: seq<Value>): seq<Value> {
    match items
    case NoItems => before
    case MoreItems(head, tail) => ItemsMeaning(tail, before + [Meaning(head)])
  }

  function FieldsMeaning(fields: Fields, before: map<string, Value>): map<string, Value> {
    match fields
    case NoFields => before
    case MoreFields(key, value, rest) => FieldsMeaning(rest, before[key := Meaning(value)])
  }

  // ----- acceptable documents

  function Keys(fields: Fields): seq<string> {
    match fields
    case NoFields => []
    case MoreFields(key, _, rest) => [key] + Keys(rest)
  }

  /** No two keys are equal ignoring case, none repeats one already seen, and reserved keys are in lower case. */
  ghost predicate KeysAcceptable(keys: seq<string>, seen: set<string>, lower: string -> string) {
    && (forall i | 0 <= i < |keys| :: KeyAllowed(keys[i], seen, lower))
    && (forall i, j | 0 <= i < j < |keys| :: lower(keys[i]) != lower(keys[j]))
  }

  /** A document at this depth that the decoder must take: nested at most 64 deep, with acceptable keys everywhere. */
  ghost predicate Acceptable(t: Tree, depth: nat, lower: string -> string) {
    && depth <= MAX_DEPTH
    && match t
       case Leaf(_) => true
       case Arr(items) => ItemsAcceptable(items, depth, lower)
       case Obj(fields) => KeysAcceptable(Keys(fields), {}, lower) && FieldsAcceptable(fields, depth, lower)
  }

  ghost predicate ItemsAcceptable(items: Trees, depth: nat, lower: string -> string) {
    items.MoreItems? ==> Acceptable(items.head, depth + 1, lower) && ItemsAcceptable(items.tail, depth, lower)
  }

  ghost predicate FieldsAcceptable(fields: Fields, depth: nat, lower: string -> string) {
    fields.MoreFields? ==> Acceptable(fields.value, depth + 1, lower) && FieldsAcceptable(fields.rest, depth, lower)
  }

  lemma KeysUnfold(key: string, keys: seq<string>, seen: set<string>, lower: string -> string)
    ensures KeysAcceptable([key] + keys, seen, lower)
            <==> KeyAllowed(key, seen, lower) && KeysAcceptable(keys, seen + {lower(key)}, lower)
  {
    if KeysAcceptable([key] + keys, seen, lower) {
      KeysSplit(key, keys, seen, lower);
    }
    if KeyAllowed(key, seen, lower) && KeysAcceptable(keys, seen + {lower(key)}, lower) {
      KeysJoin(key, keys, seen, lower);
    }
  }

  lemma KeysSplit(key: string, keys: seq<string>, seen: set<string>, lower: string -> string)
    requires KeysAcceptable([key] + keys, seen, lower)
    ensures KeyAllowed(key, seen, lower) && KeysAcceptable(keys, seen + {lower(key)}, lower)
  {
    var all := [key] + keys;
    assert all[0] == key;
    forall i | 0 <= i < |keys| ensures KeyAllowed(keys[i], seen + {lower(key)}, lower) {
      assert all[i + 1] == keys[i];
      assert KeyAllowed(all[i + 1], seen, lower) && lower(all[0]) != lower(all[i + 1]);
    }
    forall i, j | 0 <= i < j < |keys| ensures lower(keys[i]) != lower(keys[j]) {
      assert all[i + 1] == keys[i] && all[j + 1] == keys[j];
      assert lower(all[i + 1]) != lower(all[j + 1]);
    }
  }

  lemma KeysJoin(key: string, keys: seq<string>, seen: set<string>, lower: string -> string)
    requires KeyAllowed(key, seen, lower) && KeysAcceptable(keys, seen + {lower(key)}, lower)
    ensures KeysAcceptable([key] + keys, seen, lower)
  {
    var all := [key] + keys;
    forall i | 0 <= i < |all| ensures KeyAllowed(all[i], seen, lower) {
      if i > 0 {
        assert all[i] == keys[i - 1] && KeyAllowed(keys[i - 1], seen + {lower(key)}, lower);
      }
    }
    forall i, j | 0 <= i < j < |all| ensures lower(all[i]) != lower(all[j]) {
      assert all[j] == keys[j - 1] && KeyAllowed(keys[j - 1], seen + {lower(key)}, lower);
      if i > 0 {
        assert all[i] == keys[i - 1];
      }
    }
  }

  // ----- decoding undoes printing, exactly

  lemma FirstToken(t: Tree)
    requires WellFormed(t)
    ensures Print(t) != [] && Print(t)[0] !in {EndObject, EndArray}
  {
  }

  /** On a printed document the decoder returns its meaning and the rest of the stream, if and only if it is acceptable. */
  lemma {:induction false} DecodeUndoesPrint(t: Tree, rest: seq<Token>, depth: nat, lower: string -> string)
    requires WellFormed(t)
    ensures Decode(Print(t) + rest, depth, lower)
            == if Acceptable(t, depth, lower) then Some((Meaning(t), rest)) else None
    decreases t
  {
    var ts := Print(t) + rest;
    match t {
      case Leaf(_) => assert ts[1..] == rest;
      case Arr(items) =>
        assert ts[1..] == PrintItems(items) + rest;
        ItemsUndoPrint(items, rest, depth, [], lower);
      case Obj(fields) =>
        assert ts[1..] == PrintFields(fields) + rest;
        FieldsUndoPrint(fields, rest, depth, map[], {}, lower);
    }
  }

  lemma {:induction false} ItemsUndoPrint(items: Trees, rest: seq<Token>, depth: nat, before: seq<Value>,
                                          lower: string -> string)
    requires WellFormedItems(items)
    ensures DecodeItems(PrintItems(items) + rest, depth, before, lower)
            == if ItemsAcceptable(items, depth, lower) then Some((ItemsMeaning(items, before), rest)) else None
    decreases items
  {
    var ts := PrintItems(items) + rest;
    match items {
      case NoItems => assert ts[1..] == rest;
      case MoreItems(head, tail) =>
        FirstToken(head);
        assert ts == Print(head) + (PrintItems(tail) + rest);
        DecodeUndoesPrint(head, PrintItems(tail) + rest, depth + 1, lower);
        ItemsUndoPrint(tail, rest, depth, before + [Meaning(head)], lower);
    }
  }

  lemma {:induction false} FieldsUndoPrint(fields: Fields, rest: seq<Token>, depth: nat, before: map<string, Value>,
                                           seen: set<string>, lower: string -> string)
    requires WellFormedFields(fields)
    ensures DecodeFields(PrintFields(fields) + rest, depth, before, seen, lower)
            == if KeysAcceptable(Keys(fields), seen, lower) && FieldsAcceptable(fields, depth, lower)
               then Some((FieldsMeaning(fields, before), rest)) else None
    decreases fields
  {
    var ts := PrintFields(fields) + rest;
    match fields {
      case NoFields => assert ts[1..] == rest;
      case MoreFields(key, value, more) =>
        assert ts[1..] == Print(value) + (PrintFields(more) + rest);
        KeysUnfold(key, Keys(more), seen, lower);
        DecodeUndoesPrint(value, PrintFields(more) + rest, depth + 1, lower);
        FieldsUndoPrint(more, rest, depth, before[key := Meaning(value)], seen + {lower(key)}, lower);
    }
  }

  // ----- nothing else is decoded

  lemma Regroup(first: Token, middle: seq<Token>, rest: seq<Token>)
    ensures [first] + (middle + rest) == [first] + middle + rest
  {
  }

  /** The document behind a stream that the decoder takes. */
  lemma {:induction false} ReadBack(ts: seq<Token>, depth: nat, lower: string -> string) returns (t: Tree)
    requires Decode(ts, depth, lower).Some?
    ensures WellFormed(t) && ts == Print(t) + Decode(ts, depth, lower).value.1
    decreases |ts|, 1
  {
    var first, more, rest := ts[0], ts[1..], Decode(ts, depth, lower).value.1;
    assert ts == [first] + more;
    match first {
      case BeginObject =>
        var fields := ReadBackFields(more, depth, map[], {}, lower);
        t := Obj(fields);
        Regroup(BeginObject, PrintFields(fields), rest);
      case BeginArray =>
        var items := ReadBackItems(more, depth, [], lower);
        t := Arr(items);
        Regroup(BeginArray, PrintItems(items), rest);
      case token => t := Leaf(token);
    }
  }

  lemma {:induction false} ReadBackItems(ts: seq<Token>, depth: nat, before: seq<Value>, lower: string -> string)
    returns (items: Trees)
    requires DecodeItems(ts, depth, before, lower).Some?
    ensures WellFormedItems(items) && ts == PrintItems(items) + DecodeItems(ts, depth, before, lower).value.1
    decreases |ts|, 2
  {
    if ts[0] == EndArray {
      items := NoItems;
      assert ts == [ts[0]] + ts[1..];
    } else {
      var head := ReadBack(ts, depth + 1, lower);
      var (v, rest) := Decode(ts, depth + 1, lower).value;
      var tail := ReadBackItems(rest, depth, before + [v], lower);
      items := MoreItems(head, tail);
    }
  }

  lemma {:induction false} ReadBackFields(ts: seq<Token>, depth: nat, before: map<string, Value>, seen: set<string>,
                                          lower: string -> string) returns (fields: Fields)
    requires DecodeFields(ts, depth, before, seen, lower).Some?
    ensures WellFormedFields(fields) && ts == PrintFields(fields) + DecodeFields(ts, depth, before, seen, lower).value.1
    decreases |ts|, 0
  {
    var first, more := ts[0], ts[1..];
    assert ts == [first] + more;
    if first == EndObject {
      fields := NoFields;
    } else {
      var value := ReadBack(more, depth + 1, lower);
      var (v, rest) := Decode(more, depth + 1, lower).value;
      var others := ReadBackFields(rest, depth, before[first.text := v], seen + {lower(first.text)}, lower);
      fields := MoreFields(first.text, value, others);
      assert ts == [Str(first.text)] + Print(value) + rest;
    }
  }

  /** Every stream the decoder takes is a printed acceptable document, followed by what it leaves. */
  lemma DecodedStreamsArePrints(ts: seq<Token>, depth: nat, lower: string -> string) returns (t: Tree)
    requires Decode(ts, depth, lower).Some?
    ensures WellFormed(t) && Acceptable(t, depth, lower)
    ensures ts == Print(t) + Decode(ts, depth, lower).value.1
    ensures Decode(ts, depth, lower).value.0 == Meaning(t)
  {
    t := ReadBack(ts, depth, lower);
    DecodeUndoesPrint(t, Decode(ts, depth, lower).value.1, depth, lower);
  }

  // ----- no field hides another

  ghost predicate HasField(fields: Fields, key: string, value: Tree) {
    fields.MoreFields? && ((fields.key == key && fields.value == value) || HasField(fields.rest, key, value))
  }

  lemma {:induction false} LaterFieldsKeep(fields: Fields, before: map<string, Value>, key: string)
    requires key in before && key !in Keys(fields)
    ensures key in FieldsMeaning(fields, before) && FieldsMeaning(fields, before)[key] == before[key]
  {
    match fields {
      case NoFields =>
      case MoreFields(k, v, rest) => LaterFieldsKeep(rest, before[k := Meaning(v)], key);
    }
  }

  /** The decoded object says of every key exactly what the document wrote for it. */
  lemma {:induction false} NoFieldIsHidden(fields: Fields, before: map<string, Value>, seen: set<string>, key: string,
                                           value: Tree, lower: string -> string)
    requires KeysAcceptable(Keys(fields), seen, lower) && HasField(fields, key, value)
    ensures key in FieldsMeaning(fields, before) && FieldsMeaning(fields, before)[key] == Meaning(value)
    decreases fields
  {
    var more := fields.rest;
    KeysUnfold(fields.key, Keys(more), seen, lower);
    var after := before[fields.key := Meaning(fields.value)];
    if fields.key == key && fields.value == value {
      KeyIsNotRepeated(key, Keys(more), seen + {lower(key)}, lower);
      LaterFieldsKeep(more, after, key);
    } else {
      NoFieldIsHidden(more, after, seen + {lower(fields.key)}, key, value, lower);
    }
  }

  lemma KeyIsNotRepeated(key: string, keys: seq<string>, seen: set<string>, lower: string -> string)
    requires KeysAcceptable(keys, seen, lower) && lower(key) in seen
    ensures key !in keys
  {
    forall i | 0 <= i < |keys| ensures keys[i] != key {
      assert KeyAllowed(keys[i], seen, lower);
    }
  }

  // ----- the decoder over its input

  class Decoder {
    const stream: seq<Token>
    var position: nat

    ghost predicate Valid()
      reads this
    {
      position <= |stream|
    }

    ghost function Left(): seq<Token>
      reads this
      requires Valid()
    {
      stream[position..]
    }

    constructor (stream: seq<Token>)
      ensures this.stream == stream && position == 0
    {
      this.stream, position := stream, 0;
    }

    /** The next token; None at the end of the input. */
    method Next() returns (t: Option<Token>)
      requires Valid()
      modifies this
      ensures Valid()
      ensures t == if old(Left()) == [] then None else Some(old(Left())[0])
      ensures Left() == if old(Left()) == [] then [] else old(Left())[1..]
    {
      if position == |stream| {
        return None;
      }
      t := Some(stream[position]);
      position := position + 1;
    }

    /** Whether the array or object being read goes on. */
    predicate More()
      reads this
    {
      position < |stream| && stream[position] != EndObject && stream[position] != EndArray
    }

    method DecodeUnique(depth: nat, lower: string -> string) returns (r: Option<Value>)
      requires Valid()
      modifies this
      ensures Valid()
      ensures match Decode(old(Left()), depth, lower)
              case None => r.None?
              case Some((v, rest)) => r == Some(v) && Left() == rest
      decreases |Left()|, 1
    {
      if depth > MAX_DEPTH {
        return None;
      }
      var token := Next();
      if token.None? {
        return None;
      }
      match token.value {
        case BeginObject =>
          var fields := ReadFields(depth, lower);
          r := if fields.None? then None else Some(Object(fields.value));
        case BeginArray =>
          var items := ReadItems(depth, lower);
          r := if items.None? then None else Some(Array(items.value));
        case EndObject => r := None;
        case EndArray => r := None;
        case t => r := Some(Scalar(t));
      }
    }

    /** The loop over an object's fields. */
    method ReadFields(depth: nat, lower: string -> string) returns (r: Option<map<string, Value>>)
      requires Valid()
      modifies this
      ensures Valid()
      ensures match DecodeFields(old(Left()), depth, map[], {}, lower)
              case None => r.None?
              case Some((fields, rest)) => r == Some(fields) && Left() == rest
      decreases |Left()|, 0
    {
      var fields: map<string, Value> := map[];
      var seen: set<string> := {};
      ghost var start := Left();
      while More()
        invariant Valid() && |Left()| <= |start|
        invariant DecodeFields(start, depth, map[], {}, lower) == DecodeFields(Left(), depth, fields, seen, lower)
        decreases |Left()|
      {
        var token := Next();
        if !token.value.Str? || lower(token.value.text) in seen {
          return None;
        }
        var key := token.value.text;
        var lowerKey := lower(key);
        if lowerKey in RESERVED && key != lowerKey {
          return None;
        }
        seen := seen + {lowerKey};
        var value := DecodeUnique(depth + 1, lower);
        if value.None? {
          return None;
        }
        fields := fields[key := value.value];
      }
      var end := Next();
      r := if end == Some(EndObject) then Some(fields) else None;
    }

    /** The loop over an array's items. */
    method ReadItems(depth: nat, lower: string -> string) returns (r: Option<seq<Value>>)
      requires Valid()
      modifies this
      ensures Valid()
      ensures match DecodeItems(old(Left()), depth, [], lower)
              case None => r.None?
              case Some((items, rest)) => r == Some(items) && Left() == rest
      decreases |Left()|, 2
    {
      var items: seq<Value> := [];
      ghost var start := Left();
      while More()
        invariant Valid() && |Left()| <= |start|
        invariant DecodeItems(start, depth, [], lower) == DecodeItems(Left(), depth, items, lower)
        decreases |Left()|
      {
        var value := DecodeUnique(depth + 1, lower);
        if value.None? {
          return None;
        }
        items := items + [value.value];
      }
      var end := Next();
      r := if end == Some(EndArray) then Some(items) else None;
    }
  }
}
