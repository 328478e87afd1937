/**
 * The Item entity: a catalogued thing of some type (a book, a person, a
 * movie, ...) with a few fixed columns and a JSON object of free-form
 * attributes, typed accessors over well-known attributes, and the display
 * helpers built from them.
 */
module ItemEntity {
  import opened Wrappers
  import opened Text
  import opened Records

  /** A stored item row, as the repositories and the batch services see it. */
  datatype ItemRecord = ItemRecord(
    id: int,
    itemType: string,
    name: Option<string>,
    description: Option<string>,
    creator: Option<string>,
    createdYear: Option<string>,
    externalId: Option<string>,
    source: Option<string>,
    attributes: Option<Json>)

  function ItemIdOf(r: ItemRecord): int { r.id }

  function ItemWithId(r: ItemRecord, id: int): (s: ItemRecord)
    ensures ItemIdOf(s) == id
  {
    r.(id := id)
  }

  // ---------------------------------------------------------------------
  // Java values going into and out of the attribute object
  // ---------------------------------------------------------------------

  /** The `Class<T>` argument of getAttribute. */
  datatype ValueClass = StringClass | IntegerClass | LongClass | DoubleClass | BooleanClass | OtherClass

  /** A Java value handed to setAttribute or returned by getAttribute. */
  datatype JavaValue =
    | JavaNull
    | JavaString(s: string)
    | JavaInteger(i: Int32)
    | JavaLong(l: Int64)
    | JavaDouble(d: Double)
    | JavaBoolean(b: bool)
    | JavaOther(text: string)   // any other object, known by its toString()

  function ClassOf(v: JavaValue): ValueClass
  {
    match v
    case JavaString(_) => StringClass
    case JavaInteger(_) => IntegerClass
    case JavaLong(_) => LongClass
    case JavaDouble(_) => DoubleClass
    case JavaBoolean(_) => BooleanClass
    case _ => OtherClass
  }

  /** `(int) l`: the low 32 bits, read as two's complement. */
  function Wrap32(l: int): (r: Int32)
    ensures -0x8000_0000 <= l < 0x8000_0000 ==> r == l
  {
    (l + 0x8000_0000) % 0x1_0000_0000 - 0x8000_0000
  }

  /**
   * Jackson's NumberInput.parseAsInt / parseAsLong with default 0, for [lo, hi]
   * the range of int or long: after trimming, an optionally signed run of
   * decimal digits in range gives its value; anything else gives 0. (Text
   * that is not a signed digit run goes through Jackson's double parser,
   * which the model does not have; it gives 0 here.)
   */
  function ParseAsInteger(s: string, lo: int, hi: int): (r: int)
    requires lo <= 0 <= hi
    ensures lo <= r <= hi
  {
    var t := Trim(s, IsJavaSpace);
    if t == [] then 0
    else
      var negative := t[0] == '-';
      var digits := if t[0] == '+' || t[0] == '-' then t[1..] else t;
      if digits == [] || !AllDigits(digits) then 0
      else
        var v: int := if negative then 0 - DigitsValue(digits) else DigitsValue(digits);
        if lo <= v <= hi then v else 0
  }

  /**
   * `Double.toString((double) v)` for an integer v: "123.0" below ten
   * million, "1.2345678E7" from there on. Exact for |v| < 2^53, where the
   * conversion to double does not round.
   */
  function IntegerDoubleText(v: int): string
  {
    (if v < 0 then "-" else "") + DigitsDoubleText(NatToString(if v < 0 then -v else v))
  }

  /** `Double.toString` of a whole number given by its decimal digits. */
  function DigitsDoubleText(d: string): string
    requires d != []
  {
    if |d| <= 7 then d + ".0"
    else
      var fraction := StripTrailingZeros(d[1..]);
      [d[0]] + "." + (if fraction == [] then "0" else fraction) + "E" + NatToString(|d| - 1)
  }

  /** JsonNode.asText() */
  function AsText(node: Json): string
  {
    match node
    case JText(s) => s
    case JInt(i) => IntToString(i)
    case JLong(l) => IntToString(l)
    case JDouble(d) => d.text
    case JBool(b) => if b then "true" else "false"
    case JNull => "null"
    case _ => ""
  }

  /** JsonNode.asInt(): a long is narrowed, a boolean is 1 or 0, text is parsed. */
  function AsInt(node: Json): Int32
  {
    match node
    case JInt(i) => i
    case JLong(l) => Wrap32(l)
    case JBool(b) => if b then 1 else 0
    case JText(s) => ParseAsInteger(s, -0x8000_0000, 0x7FFF_FFFF)
    case _ => 0   // a double's truncation is not modelled
  }

  /** JsonNode.asLong() */
  function AsLong(node: Json): Int64
  {
    match node
    case JInt(i) => i
    case JLong(l) => l
    case JBool(b) => if b then 1 else 0
    case JText(s) => ParseAsInteger(s, -0x8000_0000_0000_0000, 0x7FFF_FFFF_FFFF_FFFF)
    case _ => 0   // a double's truncation is not modelled
  }

  /** JsonNode.asDouble() */
  function AsDouble(node: Json): Double
  {
    match node
    case JDouble(d) => d
    case JInt(i) => Double(IntegerDoubleText(i))
    case JLong(l) => Double(IntegerDoubleText(l))
    case JBool(b) => if b then Double("1.0") else Double("0.0")
    case _ => Double("0.0")   // parsing text as a double is not modelled
  }

  /** JsonNode.asBoolean(): numbers are true when non-zero, text when it trims to "true". */
  function AsBoolean(node: Json): bool
  {
    match node
    case JBool(b) => b
    case JInt(i) => i != 0
    case JLong(l) => l != 0
    case JText(s) => Trim(s, IsJavaSpace) == "true"
    case _ => false
  }

  /**
   * getAttribute(key, type, defaultValue): the default when there is no
   * attribute object, no such key, a JSON null, or a class other than the
   * five supported; otherwise the node converted to the requested class.
   */
  function AttributeValue(attributes: Option<Json>, key: string, valueClass: ValueClass, default: JavaValue)
    : (v: JavaValue)
    ensures (attributes.None? || !Has(attributes.value, key)) ==> v == default
    ensures attributes.Some? && Has(attributes.value, key) && attributes.value.fields[key].JNull? ==> v == default
    ensures valueClass.OtherClass? ==> v == default
    ensures (attributes.Some? && Has(attributes.value, key) && !attributes.value.fields[key].JNull?
             && !valueClass.OtherClass?) ==> ClassOf(v) == valueClass
  {
    if attributes.None? || !Has(attributes.value, key) then default
    else
      var node := attributes.value.fields[key];
      if node.JNull? || valueClass.OtherClass? then default
      else Convert(node, valueClass)
  }

  /** The conversion getAttribute applies to a present, non-null node. */
  function Convert(node: Json, valueClass: ValueClass): (v: JavaValue)
    requires !valueClass.OtherClass?
    ensures ClassOf(v) == valueClass
  {
    match valueClass
    case StringClass => JavaString(AsText(node))
    case IntegerClass => JavaInteger(AsInt(node))
    case LongClass => JavaLong(AsLong(node))
    case DoubleClass => JavaDouble(AsDouble(node))
    case BooleanClass => JavaBoolean(AsBoolean(node))
  }

  /** The node ObjectNode.put / putNull stores for a value. */
  function ToNode(v: JavaValue): Json
  {
    match v
    case JavaNull => JNull
    case JavaString(s) => JText(s)
    case JavaInteger(i) => JInt(i)
    case JavaLong(l) => JLong(l)
    case JavaDouble(d) => JDouble(d)
    case JavaBoolean(b) => JBool(b)
    case JavaOther(text) => JText(text)
  }

  /**
   * setAttribute(key, value): a missing attribute object is created empty;
   * the value is stored under the key only when the attributes are an object.
   */
  function WithAttribute(attributes: Option<Json>, key: string, value: JavaValue): (a: Option<Json>)
    ensures a.Some?
    ensures attributes.Some? && !attributes.value.JObject? ==> a == attributes
    ensures attributes.None? || attributes.value.JObject? ==>
      a.value.JObject? && key in a.value.fields && a.value.fields[key] == ToNode(value)
  {
    var node := if attributes.None? then JObject(map[]) else attributes.value;
    if node.JObject? then Some(JObject(node.fields[key := ToNode(value)])) else Some(node)
  }

  /** The attribute values that are never read back as JSON null. */
  predicate IsStorable(v: JavaValue)
  {
    !v.JavaNull? && !v.JavaOther?
  }

  /** Setting a String, Integer, Long, Double or Boolean and reading it with its own class gives it back. */
  lemma AttributeRoundTrip(attributes: Option<Json>, key: string, v: JavaValue, default: JavaValue)
    requires attributes.None? || attributes.value.JObject?
    requires IsStorable(v)
    ensures AttributeValue(WithAttribute(attributes, key, v), key, ClassOf(v), default) == v
  {
  }

  /** Setting one key leaves what every other key reads as unchanged. */
  lemma OtherAttributesUnchanged(attributes: Option<Json>, key: string, v: JavaValue,
                                 other: string, valueClass: ValueClass, default: JavaValue)
    requires key != other
    ensures AttributeValue(WithAttribute(attributes, key, v), other, valueClass, default)
         == AttributeValue(attributes, other, valueClass, default)
  {
  }

  /** Setting null makes every read of that key give the caller's default. */
  lemma NullAttributeReadsDefault(attributes: Option<Json>, key: string, valueClass: ValueClass, default: JavaValue)
    ensures AttributeValue(WithAttribute(attributes, key, JavaNull), key, valueClass, default) == default
  {
  }

  /** Any other object is stored as its toString() text. */
  lemma OtherValueStoredAsText(attributes: Option<Json>, key: string, text: string, default: JavaValue)
    requires attributes.None? || attributes.value.JObject?
    ensures AttributeValue(WithAttribute(attributes, key, JavaOther(text)), key, StringClass, default)
         == JavaString(text)
  {
  }

  /** A decimal rendering has no space to trim at either end. */
  lemma RenderingTrimmed(v: int)
    ensures Trim(IntToString(v), IsJavaSpace) == IntToString(v)
  {
    var s := IntToString(v);
    var d := NatToString(if v < 0 then -v else v);
    assert IsDigit(d[0]) && IsDigit(d[|d| - 1]);
    assert s[|s| - 1] == d[|d| - 1];
    assert TrimStart(s, IsJavaSpace) == s;
  }

  /** A decimal rendering is the digits of the magnitude, after a '-' exactly when negative. */
  lemma RenderingParts(v: int)
    ensures var s := IntToString(v);
      && s != [] && s[0] != '+'
      && (s[0] == '-' <==> v < 0)
      && (v < 0 ==> s[1..] == NatToString(-v))
      && (v >= 0 ==> s == NatToString(v))
  {
    var s := IntToString(v);
    if v < 0 {
      assert s[1..] == NatToString(-v);
    } else {
      assert IsDigit(NatToString(v)[0]);
    }
  }

  /** Parsing the decimal rendering of an int or long gives it back. */
  lemma {:induction false} ParseIntToString(v: int, lo: int, hi: int)
    requires lo <= 0 <= hi && lo <= v <= hi
    ensures ParseAsInteger(IntToString(v), lo, hi) == v
  {
    RenderingTrimmed(v);
    RenderingParts(v);
    DigitsValueOfNatToString(if v < 0 then -v else v);
  }

  /** An integer stored as an Integer reads back, as a String, as its decimal text, and that text reads back as the integer. */
  lemma IntegerTextRoundTrip(attributes: Option<Json>, key: string, i: Int32, default: JavaValue)
    requires attributes.None? || attributes.value.JObject?
    ensures AttributeValue(WithAttribute(attributes, key, JavaInteger(i)), key, StringClass, default)
         == JavaString(IntToString(i))
    ensures AttributeValue(WithAttribute(attributes, key, JavaString(IntToString(i))), key, IntegerClass, default)
         == JavaInteger(i)
  {
    ReadStored(attributes, key, JavaInteger(i), StringClass, default);
    ReadStored(attributes, key, JavaString(IntToString(i)), IntegerClass, default);
    AsIntOfIntText(i);
  }

  /** A non-null value just stored reads back as its node converted to the requested class. */
  lemma ReadStored(attributes: Option<Json>, key: string, v: JavaValue, valueClass: ValueClass, default: JavaValue)
    requires attributes.None? || attributes.value.JObject?
    requires !v.JavaNull? && !valueClass.OtherClass?
    ensures AttributeValue(WithAttribute(attributes, key, v), key, valueClass, default) == Convert(ToNode(v), valueClass)
  {
  }

  /** The decimal text of an int reads back, with asInt(), as the int. */
  lemma AsIntOfIntText(i: Int32)
    ensures AsInt(JText(IntToString(i))) == i
  {
    ParseIntToString(i, -0x8000_0000, 0x7FFF_FFFF);
  }

  /** A Long read back as an Integer keeps only its low 32 bits. */
  lemma LongReadAsIntegerWraps(attributes: Option<Json>, key: string, l: Int64, default: JavaValue)
    requires attributes.None? || attributes.value.JObject?
    ensures AttributeValue(WithAttribute(attributes, key, JavaLong(l)), key, IntegerClass, default)
         == JavaInteger(Wrap32(l))
  {
  }

  // ---------------------------------------------------------------------
  // Display helpers
  // ---------------------------------------------------------------------

  /** The separators of `[_\s]+`: an underscore or a regex space. */
  predicate IsTypeSeparator(c: char) { c == '_' || IsRegexSpace(c) }

  /** A non-empty run of non-separators. */
  predicate IsWord(w: string)
  {
    w != [] && forall i :: 0 <= i < |w| ==> !IsTypeSeparator(w[i])
  }

  /** The leading run of non-separators of t. */
  function WordAt(t: string): (w: string)
    ensures |w| <= |t| && w == t[..|w|]
    ensures forall i :: 0 <= i < |w| ==> !IsTypeSeparator(w[i])
    ensures |w| < |t| ==> IsTypeSeparator(t[|w|])
  {
    if t == [] || IsTypeSeparator(t[0]) then [] else [t[0]] + WordAt(t[1..])
  }

  /** t without its leading separators. */
  function DropSeparators(t: string): (r: string)
    ensures |r| <= |t| && r == t[|t| - |r|..]
    ensures r != [] ==> !IsTypeSeparator(r[0])
    ensures forall i :: 0 <= i < |t| - |r| ==> IsTypeSeparator(t[i])
  {
    if t != [] && IsTypeSeparator(t[0]) then DropSeparators(t[1..]) else t
  }

  /** The words of a string that starts with a non-separator, split on separator runs; a trailing run gives no word. */
  function Words(t: string): (ws: seq<string>)
    requires t == [] || !IsTypeSeparator(t[0])
    ensures t != [] ==> ws != [] && ws[0] == WordAt(t)
    decreases |t|
  {
    if t == [] then []
    else
      var w := WordAt(t);
      [w] + Words(DropSeparators(t[|w|..]))
  }

  /** Every part Words gives is a word. */
  lemma {:induction false} WordsAreWords(t: string)
    requires t == [] || !IsTypeSeparator(t[0])
    ensures forall k :: 0 <= k < |Words(t)| ==> IsWord(Words(t)[k])
    decreases |t|
  {
    if t != [] {
      var w := WordAt(t);
      var rest := DropSeparators(t[|w|..]);
      WordsAreWords(rest);
      assert Words(t) == [w] + Words(rest);
    }
  }

  /**
   * `s.split("[_\\s]+")`: a string without separators is its own only
   * part; a leading separator run gives a leading empty part; trailing
   * empty parts are dropped, so a string of separators only gives no parts.
   */
  function SplitType(s: string): seq<string>
  {
    if s == [] then [""]
    else if IsTypeSeparator(s[0]) then
      var rest := DropSeparators(s);
      if rest == [] then [] else [""] + Words(rest)
    else Words(s)
  }

  /** Every character is a separator. */
  predicate AllSeparators(s: string)
  {
    forall i :: 0 <= i < |s| ==> IsTypeSeparator(s[i])
  }

  /** Some part is the empty string. */
  predicate HasEmptyPart(parts: seq<string>)
  {
    exists k :: 0 <= k < |parts| && parts[k] == []
  }

  /** A non-empty string splits into an empty part exactly when it starts with a separator and is not all separators. */
  lemma SplitTypeEmptyPart(s: string)
    requires s != []
    ensures HasEmptyPart(SplitType(s)) <==> IsTypeSeparator(s[0]) && !AllSeparators(s)
  {
    var parts := SplitType(s);
    if IsTypeSeparator(s[0]) {
      var rest := DropSeparators(s);
      if !AllSeparators(s) {
        var i :| 0 <= i < |s| && !IsTypeSeparator(s[i]);
        assert rest != [];
        assert parts == [""] + Words(rest);
        assert parts[0] == [];
      } else {
        assert rest == [];
        assert parts == [];
      }
    } else {
      assert parts == Words(s);
      WordsAreWords(s);
    }
  }

  /** Lower-casing turns no separator into a non-separator, nor back. */
  lemma LowerKeepsSeparators(s: string)
    ensures |Lower(s)| == |s|
    ensures s != [] ==> (IsTypeSeparator(Lower(s)[0]) <==> IsTypeSeparator(s[0]))
    ensures AllSeparators(Lower(s)) <==> AllSeparators(s)
  {
    var t := Lower(s);
    assert forall i :: 0 <= i < |s| ==> (IsTypeSeparator(t[i]) <==> IsTypeSeparator(s[i]));
  }

  /** `part.substring(0, 1).toUpperCase() + part.substring(1)` */
  function CapitalizeWord(w: string): string
    requires w != []
  {
    [UpperChar(w[0])] + w[1..]
  }

  function CapitalizeAll(parts: seq<string>): (r: seq<string>)
    requires forall k :: 0 <= k < |parts| ==> parts[k] != []
    ensures |r| == |parts|
    ensures forall k :: 0 <= k < |parts| ==> r[k] == CapitalizeWord(parts[k])
  {
    seq(|parts|, k requires 0 <= k < |parts| => CapitalizeWord(parts[k]))
  }

  /** Capitalising one more part appends its capitalised form. */
  lemma CapitalizeAllSnoc(parts: seq<string>, k: nat)
    requires k < |parts| && forall j :: 0 <= j <= k ==> parts[j] != []
    ensures CapitalizeAll(parts[..k + 1]) == CapitalizeAll(parts[..k]) + [CapitalizeWord(parts[k])]
  {
    var a := CapitalizeAll(parts[..k + 1]);
    var b := CapitalizeAll(parts[..k]) + [CapitalizeWord(parts[k])];
    forall j | 0 <= j < |a| ensures a[j] == b[j] {
      if j < k {
        assert parts[..k + 1][j] == parts[..k][j];
      }
    }
  }

  /**
   * The fallback display name tells ids apart: two items of one type
   * without a usable name get the same "<Type> #<id>" text only when their
   * ids are equal.
   */
  lemma FallbackNameInjective(typeLabel: string, a: int, b: int)
    requires typeLabel + " #" + IntToString(a) == typeLabel + " #" + IntToString(b)
    ensures a == b
  {
    var prefix := typeLabel + " #";
    assert (prefix + IntToString(a))[|prefix|..] == IntToString(a);
    assert (prefix + IntToString(b))[|prefix|..] == IntToString(b);
    IntToStringInjective(a, b);
  }

  /**
   * capitalizeItemType, as a value: "Item" for the empty type; otherwise the
   * lower-cased type's parts, each capitalised, joined by single spaces. An
   * empty part (a type that starts with a separator) makes `substring(0, 1)`
   * throw.
   */
  function CapitalizedType(itemType: string): Result<string>
  {
    if itemType == [] then Ok("Item")
    else
      var parts := SplitType(Lower(itemType));
      if HasEmptyPart(parts) then Err(IndexOutOfBoundsException)
      else Ok(Join(CapitalizeAll(parts), " "))
  }

  /** capitalizeItemType: the part-by-part loop computes CapitalizedType. */
  method CapitalizeItemType(itemType: string) returns (r: Result<string>)
    ensures r == CapitalizedType(itemType)
  {
    if itemType == [] {
      return Ok("Item");
    }
    var parts := SplitType(Lower(itemType));
    var result := "";
    var k := 0;
    while k < |parts|
      invariant 0 <= k <= |parts|
      invariant forall j :: 0 <= j < k ==> parts[j] != []
      invariant result == Join(CapitalizeAll(parts[..k]), " ")
      invariant (k == 0) == (result == [])
    {
      if parts[k] == [] {
        return Err(IndexOutOfBoundsException);
      }
      CapitalizeAllSnoc(parts, k);
      JoinAppend(CapitalizeAll(parts[..k]), CapitalizeWord(parts[k]), " ");
      if |result| > 0 {
        result := result + " ";
      }
      result := result + CapitalizeWord(parts[k]);
      k := k + 1;
    }
    assert parts[..k] == parts;
    return Ok(result);
  }

  /**
   * capitalizeItemType throws exactly when the type starts with a
   * separator and is not made of separators only.
   */
  lemma CapitalizedTypeFailsIff(itemType: string)
    ensures CapitalizedType(itemType).Err? <==>
      itemType != [] && IsTypeSeparator(itemType[0]) && !AllSeparators(itemType)
  {
    if itemType != [] {
      LowerKeepsSeparators(itemType);
      SplitTypeEmptyPart(Lower(itemType));
    }
  }

  /** A snake_case type: lower-case words of non-separators joined by single underscores. */
  predicate IsSnakeCase(s: string)
  {
    && s != []
    && (forall i :: 0 <= i < |s| ==> !IsUpperAscii(s[i]) && !IsRegexSpace(s[i]))
    && s[0] != '_' && s[|s| - 1] != '_'
    && (forall i, j | 0 <= i < |s| && 0 <= j < |s| && j == i + 1 :: !(s[i] == '_' && s[j] == '_'))
  }

  /** A word of a snake_case type: no upper-case letter and no space. */
  predicate IsLowerWord(w: string)
  {
    w != [] && forall i :: 0 <= i < |w| ==> !IsUpperAscii(w[i]) && w[i] != ' '
  }

  /** A string is its prefix, the character at n and its suffix. */
  lemma SplitAround(s: string, n: nat)
    requires n < |s|
    ensures s == s[..n] + [s[n]] + s[n + 1..]
  {
  }

  /** A separator inside a snake_case string is a single '_' with a word character after it. */
  lemma SnakeCaseSeparator(s: string, n: nat)
    requires IsSnakeCase(s) && n < |s| && IsTypeSeparator(s[n])
    ensures s[n] == '_' && n + 1 < |s| && !IsTypeSeparator(s[n + 1])
  {
    assert !IsRegexSpace(s[n]);
    assert n + 1 < |s|;
    assert !(s[n] == '_' && s[n + 1] == '_');
    assert !IsRegexSpace(s[n + 1]);
  }

  /** A suffix of a snake_case string that starts at a word character is snake_case. */
  lemma SnakeCaseSuffix(s: string, m: nat)
    requires IsSnakeCase(s) && m < |s| && s[m] != '_'
    ensures IsSnakeCase(s[m..])
  {
    var t := s[m..];
    forall i | 0 <= i < |t| ensures !IsUpperAscii(t[i]) && !IsRegexSpace(t[i]) {
      assert t[i] == s[m + i];
    }
    forall i, j | 0 <= i < |t| && 0 <= j < |t| && j == i + 1 ensures !(t[i] == '_' && t[j] == '_') {
      assert t[i] == s[m + i] && t[j] == s[m + j];
    }
    assert t[|t| - 1] == s[|s| - 1];
  }

  /** The tail of a snake_case string after its first word and underscore is snake_case. */
  lemma SnakeCaseTail(s: string, w: string)
    requires IsSnakeCase(s) && w == WordAt(s) && |w| < |s|
    ensures |w| + 1 < |s| && s[|w|] == '_'
    ensures DropSeparators(s[|w|..]) == s[|w| + 1..]
    ensures IsSnakeCase(s[|w| + 1..])
  {
    var n := |w|;
    SnakeCaseSeparator(s, n);
    var tail := s[n + 1..];
    SnakeCaseSuffix(s, n + 1);
    assert tail[0] == s[n + 1];
    assert DropSeparators(tail) == tail;
    assert s[n..][1..] == tail;
  }

  /** The first word of a snake_case string is a lower-case word at its very start. */
  lemma FirstWordLower(s: string)
    requires IsSnakeCase(s)
    ensures !IsTypeSeparator(s[0])
    ensures IsLowerWord(WordAt(s))
  {
    assert !IsRegexSpace(s[0]);
    var w := WordAt(s);
    forall i | 0 <= i < |w| ensures !IsUpperAscii(w[i]) && w[i] != ' ' {
      assert w[i] == s[i];
    }
  }

  /** A snake_case string with more than one word is its first word, '_' and a snake_case tail. */
  lemma SnakeCaseStep(s: string)
    requires IsSnakeCase(s) && |WordAt(s)| < |s|
    ensures var w := WordAt(s);
      && |w| + 1 < |s|
      && IsSnakeCase(s[|w| + 1..])
      && Words(s) == [w] + Words(s[|w| + 1..])
      && s == w + "_" + s[|w| + 1..]
  {
    var w := WordAt(s);
    FirstWordLower(s);
    SnakeCaseTail(s, w);
    SplitAround(s, |w|);
    assert [s[|w|]] == "_";
  }

  /** Joining a first part and a non-empty rest puts the separator between them. */
  lemma JoinCons(w: string, rest: seq<string>, sep: string)
    requires rest != []
    ensures Join([w] + rest, sep) == w + sep + Join(rest, sep)
  {
    assert ([w] + rest)[1..] == rest;
  }

  /** Splitting a snake_case string on separators and re-joining with '_' gives it back. */
  lemma {:induction false} WordsOfSnakeCase(s: string)
    requires IsSnakeCase(s)
    ensures !IsTypeSeparator(s[0])
    ensures Join(Words(s), "_") == s
    ensures forall k :: 0 <= k < |Words(s)| ==> IsLowerWord(Words(s)[k])
    decreases |s|
  {
    FirstWordLower(s);
    var w := WordAt(s);
    var ws := Words(s);
    if |w| < |s| {
      SnakeCaseStep(s);
      var tail := s[|w| + 1..];
      WordsOfSnakeCase(tail);
      var rest := Words(tail);
      assert ws == [w] + rest;
      JoinCons(w, rest, "_");
      forall k | 0 <= k < |ws| ensures IsLowerWord(ws[k]) {
        if k > 0 {
          assert ws[k] == rest[k - 1];
        }
      }
    } else {
      assert w == s;
      assert DropSeparators(s[|w|..]) == [];
      assert ws == [w];
    }
  }

  /** Lower-casing a word's capitalised form gives the word back. */
  lemma LowerCapitalizeWord(w: string)
    requires IsLowerWord(w)
    ensures Lower(ReplaceChar(CapitalizeWord(w), ' ', '_')) == w
  {
    var c := CapitalizeWord(w);
    assert forall i :: 1 <= i < |c| ==> c[i] == w[i];
  }

  /** Lower-casing the space-joined capitalised words, with spaces turned back into '_', gives the '_'-joined words. */
  lemma {:induction false} LowerJoinedWords(ws: seq<string>)
    requires forall k :: 0 <= k < |ws| ==> ws[k] != [] && IsLowerWord(ws[k])
    ensures Lower(ReplaceChar(Join(CapitalizeAll(ws), " "), ' ', '_')) == Join(ws, "_")
  {
    if |ws| == 1 {
      LowerCapitalizeWord(ws[0]);
    } else if |ws| > 1 {
      LowerJoinedWords(ws[1..]);
      LowerCapitalizeWord(ws[0]);
      var c0 := CapitalizeWord(ws[0]);
      var restCaps := Join(CapitalizeAll(ws[1..]), " ");
      assert CapitalizeAll(ws)[1..] == CapitalizeAll(ws[1..]);
      var joined := c0 + " " + restCaps;
      assert Join(CapitalizeAll(ws), " ") == joined;
      var a := Lower(ReplaceChar(c0, ' ', '_'));
      var b := Lower(ReplaceChar(restCaps, ' ', '_'));
      var x := Lower(ReplaceChar(joined, ' ', '_'));
      assert x == a + "_" + b by {
        forall i | 0 <= i < |x| ensures x[i] == (a + "_" + b)[i] {
          if i < |c0| {
            assert joined[i] == c0[i];
          } else if i == |c0| {
            assert joined[i] == ' ';
          } else {
            assert joined[i] == restCaps[i - |c0| - 1];
          }
        }
      }
    }
  }

  /** A snake_case string has no upper-case letter to lower. */
  lemma LowerOfSnakeCase(s: string)
    requires IsSnakeCase(s)
    ensures Lower(s) == s
  {
    var l := Lower(s);
    forall i | 0 <= i < |s| ensures l[i] == s[i] {
      assert !IsUpperAscii(s[i]);
    }
  }

  /**
   * The display label of a snake_case type reads back as the type:
   * "ranked_book" becomes "Ranked Book", and lower-casing that with spaces
   * turned into underscores gives "ranked_book" again.
   */
  lemma CapitalizedTypeRoundTrip(itemType: string)
    requires IsSnakeCase(itemType)
    ensures CapitalizedType(itemType).Ok?
    ensures Lower(ReplaceChar(CapitalizedType(itemType).value, ' ', '_')) == itemType
  {
    LowerOfSnakeCase(itemType);
    WordsOfSnakeCase(itemType);
    var parts := Words(itemType);
    assert SplitType(Lower(itemType)) == parts;
    assert !HasEmptyPart(parts);
    LowerJoinedWords(parts);
  }

  // ---------------------------------------------------------------------
  // Display details
  // ---------------------------------------------------------------------

  /** No piece is the empty string. */
  predicate AllNonEmpty(parts: seq<string>)
  {
    forall k :: 0 <= k < |parts| ==> parts[k] != []
  }

  /** The pieces an optional piece contributes. */
  function PieceList(piece: Option<string>): seq<string>
  {
    if piece.Some? then [piece.value] else []
  }

  /** The pieces of getDisplayDetails, in order. */
  function DetailParts(creator: Option<string>, createdYear: Option<string>, kind: DetailKind,
                       rank: Option<Int32>, occupation: Option<string>, imdbId: Option<string>): seq<string>
  {
    PieceList(CaptionedPiece("By: ", creator)) + PieceList(CaptionedPiece("Year: ", createdYear))
    + PieceList(TypePiece(kind, rank, occupation, imdbId))
  }

  /** A caption and a value, when the value is not blank: "By: " and the creator, "Year: " and the year. */
  function CaptionedPiece(caption: string, value: Option<string>): (piece: Option<string>)
    ensures piece.Some? <==> value.Some? && !IsBlank(value.value)
    ensures piece.Some? ==> piece.value == caption + value.value
  {
    if value.Some? && !IsBlank(value.value) then Some(caption + value.value) else None
  }

  /** The cases of getDisplayDetails' switch on the lower-cased type. */
  datatype DetailKind = BookKind | PersonKind | MovieKind | NoDetailKind

  function DetailKindOf(loweredType: string): DetailKind
  {
    if loweredType == "book" || loweredType == "ranked_book" then BookKind
    else if loweredType == "person" then PersonKind
    else if loweredType == "movie" then MovieKind
    else NoDetailKind
  }

  /** The type-specific piece: a book's rank, a person's occupation or a movie's IMDB id, when present. */
  function TypePiece(kind: DetailKind, rank: Option<Int32>, occupation: Option<string>, imdbId: Option<string>)
    : (piece: Option<string>)
    ensures piece.Some? ==> |piece.value| > 0
  {
    match kind
    case BookKind => if rank.Some? then Some("Rank: " + IntToString(rank.value)) else None
    case PersonKind => if occupation.Some? then Some("Occupation: " + occupation.value) else None
    case MovieKind => if imdbId.Some? then Some("IMDB: " + imdbId.value) else None
    case NoDetailKind => None
  }

  /** The details text: the pieces joined by ", ", or null when there are none. */
  function DetailsText(parts: seq<string>): Option<string>
  {
    if parts == [] then None else Some(Join(parts, ", "))
  }

  /** The free-text attributes reached through typed accessors (getIsbn, getEmail, ...). */
  datatype TextAttribute = Isbn | Email | Occupation | ImdbId | Doi | Journal

  function TextAttributeKey(a: TextAttribute): string
  {
    match a
    case Isbn => "isbn"
    case Email => "email"
    case Occupation => "occupation"
    case ImdbId => "imdb_id"
    case Doi => "doi"
    case Journal => "journal"
  }

  function OptionalString(o: Option<string>): JavaValue
  {
    if o.None? then JavaNull else JavaString(o.value)
  }

  function OptionalInteger(o: Option<Int32>): JavaValue
  {
    if o.None? then JavaNull else JavaInteger(o.value)
  }

  /** An entity Item, whose setters update its fields in place. */
  class Item {
    var id: int
    var itemType: string
    var name: Option<string>
    var description: Option<string>
    var creator: Option<string>
    var createdYear: Option<string>
    var externalId: Option<string>
    var source: Option<string>
    var attributes: Option<Json>

    /** The entity loaded from a stored row. */
    constructor Load(r: ItemRecord)
      ensures Record() == r
    {
      id, itemType, name, description := r.id, r.itemType, r.name, r.description;
      creator, createdYear, externalId, source := r.creator, r.createdYear, r.externalId, r.source;
      attributes := r.attributes;
    }

    /** The row the entity saves as. */
    function Record(): ItemRecord
      reads this
    {
      ItemRecord(id, itemType, name, description, creator, createdYear, externalId, source, attributes)
    }

    /** getAttribute */
    function GetAttribute(key: string, valueClass: ValueClass, default: JavaValue): (v: JavaValue)
      reads this
      ensures attributes.None? || !Has(attributes.value, key) ==> v == default
      ensures valueClass.OtherClass? ==> v == default
    {
      AttributeValue(attributes, key, valueClass, default)
    }

    /** setAttribute: only the attribute object changes. */
    method SetAttribute(key: string, value: JavaValue)
      modifies this`attributes
      ensures attributes == WithAttribute(old(attributes), key, value)
      ensures old(attributes).None? || old(attributes).value.JObject? ==>
        IsStorable(value) ==> GetAttribute(key, ClassOf(value), JavaNull) == value
    {
      attributes := WithAttribute(attributes, key, value);
      if old(attributes).None? || old(attributes).value.JObject? {
        if IsStorable(value) {
          AttributeRoundTrip(old(attributes), key, value, JavaNull);
        }
      }
    }

    /** getRank: the "rank" attribute read as an Integer, null when absent. */
    function GetRank(): (rank: Option<Int32>)
      reads this
      ensures rank.Some? ==> attributes.Some? && Has(attributes.value, "rank")
      ensures rank.Some? ==> !attributes.value.fields["rank"].JNull? && rank.value == AsInt(attributes.value.fields["rank"])
    {
      match AttributeValue(attributes, "rank", IntegerClass, JavaNull)
      case JavaInteger(i) => Some(i)
      case _ => None
    }

    /** setRank */
    method SetRank(rank: Option<Int32>)
      modifies this`attributes
      ensures attributes == WithAttribute(old(attributes), "rank", OptionalInteger(rank))
      ensures old(attributes).None? || old(attributes).value.JObject? ==> GetRank() == rank
    {
      SetAttribute("rank", OptionalInteger(rank));
    }

    /** getIsbn, getEmail, getOccupation, getImdbId, getDoi, getJournal: the attribute read as a String. */
    function GetTextAttribute(a: TextAttribute): (value: Option<string>)
      reads this
      ensures value.Some? ==> attributes.Some? && Has(attributes.value, TextAttributeKey(a))
      ensures value.Some? ==> value.value == AsText(attributes.value.fields[TextAttributeKey(a)])
    {
      match AttributeValue(attributes, TextAttributeKey(a), StringClass, JavaNull)
      case JavaString(s) => Some(s)
      case _ => None
    }

    /** setIsbn, setEmail, setOccupation, setImdbId, setDoi, setJournal */
    method SetTextAttribute(a: TextAttribute, value: Option<string>)
      modifies this`attributes
      ensures attributes == WithAttribute(old(attributes), TextAttributeKey(a), OptionalString(value))
      ensures old(attributes).None? || old(attributes).value.JObject? ==> GetTextAttribute(a) == value
    {
      SetAttribute(TextAttributeKey(a), OptionalString(value));
    }

    /** getDirector: a movie's director is its creator column. */
    function GetDirector(): (director: Option<string>)
      reads this
      ensures director == Record().creator
    {
      creator
    }

    /** setDirector: only the creator column changes. */
    method SetDirector(director: Option<string>)
      modifies this`creator
      ensures creator == director
      ensures Record() == old(Record()).(creator := director)
    {
      creator := director;
    }

    /**
     * getDisplayName: the name when it is not blank, otherwise the
     * capitalised type followed by " #" and the id.
     */
    function GetDisplayName(): (r: Result<string>)
      reads this
      ensures name.Some? && !IsBlank(name.value) ==> r == Ok(name.value)
      ensures (name.None? || IsBlank(name.value)) ==>
        (r.Ok? <==> CapitalizedType(itemType).Ok?)
        && (r.Ok? ==> StartsWith(r.value, CapitalizedType(itemType).value + " #"))
        && (r.Ok? ==> r.value == CapitalizedType(itemType).value + " #" + IntToString(id))
    {
      if name.Some? && !IsBlank(name.value) then Ok(name.value)
      else
        match CapitalizedType(itemType)
        case Err(e) => Err(e)
        case Ok(typeLabel) =>
          var r := typeLabel + " #" + IntToString(id);
          assert r[..|typeLabel + " #"|] == typeLabel + " #";
          Ok(r)
    }

    /**
     * getDisplayDetails: the builder appends each present piece, with ", "
     * between pieces; the text is exactly the pieces joined, or null when
     * there are none.
     */
    method GetDisplayDetails() returns (details: Option<string>)
      ensures details == DetailsText(DetailParts(creator, createdYear, DetailKindOf(Lower(itemType)), GetRank(),
                                                GetTextAttribute(Occupation), GetTextAttribute(ImdbId)))
    {
      details := BuildDisplayDetails(creator, createdYear, DetailKindOf(Lower(itemType)), GetRank(),
                                     GetTextAttribute(Occupation), GetTextAttribute(ImdbId));
    }
  }

  /**
   * The body of getDisplayDetails, over the values it reads: the builder
   * appends each present piece, with ", " between pieces.
   */
  method BuildDisplayDetails(creator: Option<string>, createdYear: Option<string>, kind: DetailKind,
                             rank: Option<Int32>, occupation: Option<string>, imdbId: Option<string>)
    returns (details: Option<string>)
    ensures details == DetailsText(DetailParts(creator, createdYear, kind, rank, occupation, imdbId))
  {
    var byPiece := CaptionedPiece("By: ", creator);
    var yearPiece := CaptionedPiece("Year: ", createdYear);
    var typePiece := TypePiece(kind, rank, occupation, imdbId);
    var text := "";
    ghost var parts: seq<string> := [];
    text, parts := AppendIfPresent(text, parts, byPiece);
    text, parts := AppendIfPresent(text, parts, yearPiece);
    text, parts := AppendIfPresent(text, parts, typePiece);
    assert parts == PieceList(byPiece) + PieceList(yearPiece) + PieceList(typePiece);
    details := if |text| > 0 then Some(text) else None;
    BuiltDetails(parts, text);
  }

  /** One conditional append of getDisplayDetails: a present piece goes on the end of the builder. */
  method AppendIfPresent(text: string, ghost parts: seq<string>, piece: Option<string>)
    returns (text': string, ghost parts': seq<string>)
    requires AllNonEmpty(parts) && text == AppendAll(parts)
    requires piece.Some? ==> piece.value != []
    ensures parts' == parts + PieceList(piece)
    ensures AllNonEmpty(parts') && text' == AppendAll(parts')
  {
    text', parts' := text, parts;
    if piece.Some? {
      AppendAllSnoc(parts, piece.value);
      text' := AppendDetail(text, piece.value);
      parts' := parts + [piece.value];
    }
    assert forall k :: |parts| <= k < |parts'| ==> parts'[k] == piece.value;
  }

  /** `if (details.length() > 0) details.append(", "); details.append(piece);` */
  function AppendDetail(text: string, piece: string): string
  {
    if |text| > 0 then text + ", " + piece else text + piece
  }

  /** The text the builder holds after appending each piece in turn. */
  function AppendAll(pieces: seq<string>): string
  {
    if pieces == [] then "" else AppendDetail(AppendAll(pieces[..|pieces| - 1]), pieces[|pieces| - 1])
  }

  /** The builder's final text, or null when it is empty, is the details text of the pieces appended. */
  lemma BuiltDetails(parts: seq<string>, text: string)
    requires AllNonEmpty(parts)
    requires text == AppendAll(parts)
    ensures (if |text| > 0 then Some(text) else None) == DetailsText(parts)
  {
    AppendAllIsJoin(parts);
  }

  lemma AppendAllSnoc(pieces: seq<string>, piece: string)
    ensures AppendAll(pieces + [piece]) == AppendDetail(AppendAll(pieces), piece)
  {
    assert (pieces + [piece])[..|pieces|] == pieces;
  }

  /** Appending non-empty pieces one by one joins them with ", ", and gives text exactly when there is a piece. */
  lemma {:induction false} AppendAllIsJoin(pieces: seq<string>)
    requires forall k :: 0 <= k < |pieces| ==> pieces[k] != []
    ensures AppendAll(pieces) == Join(pieces, ", ")
    ensures AppendAll(pieces) == [] <==> pieces == []
  {
    if pieces != [] {
      var init := pieces[..|pieces| - 1];
      AppendAllIsJoin(init);
      JoinAppend(init, pieces[|pieces| - 1], ", ");
      assert init + [pieces[|pieces| - 1]] == pieces;
    }
  }

  /** The details are null exactly when there is no piece to show, and otherwise contain every piece. */
  lemma DetailsTextContainsParts(parts: seq<string>)
    requires forall k :: 0 <= k < |parts| ==> parts[k] != []
    ensures DetailsText(parts).None? <==> parts == []
    ensures forall k :: 0 <= k < |parts| ==> Contains(DetailsText(parts).value, parts[k])
  {
    forall k | 0 <= k < |parts| ensures Contains(Join(parts, ", "), parts[k]) {
      JoinContains(parts, k);
    }
  }

  lemma {:induction false} JoinContains(parts: seq<string>, k: int)
    requires 0 <= k < |parts|
    ensures Contains(Join(parts, ", "), parts[k])
  {
    var j := Join(parts, ", ");
    if k == 0 {
      assert OccursAt(j, parts[0], 0) by {
        if |parts| > 1 { assert j[..|parts[0]|] == parts[0]; }
      }
    } else {
      JoinContains(parts[1..], k - 1);
      var rest := Join(parts[1..], ", ");
      var i :| 0 <= i <= |rest| - |parts[k]| && OccursAt(rest, parts[k], i);
      var off := |parts[0]| + 2;
      assert j == parts[0] + ", " + rest;
      assert j[off + i..off + i + |parts[k]|] == rest[i..i + |parts[k]|];
      assert OccursAt(j, parts[k], off + i);
    }
  }
}
