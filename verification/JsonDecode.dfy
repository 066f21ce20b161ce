/** Unmarshalling raw JSON texts into the Go types the readers use. */
module JsonDecode {
  import opened Text
  import opened JsonGrammar
  import opened JsonParser
  import opened JsonString
  import opened StrictJson

  /** The value a text denotes, if the text is one value and whitespace. */
  function Decode(raw: Bytes): (v: Option<Value>)
    ensures v.Some? ==> WellFormed(v.value)
  {
    match ParseValue(Skip(raw), MAX_DEPTH)
    case Fail => None
    case Done(v, rest) =>
      ParseValueSound(Skip(raw), MAX_DEPTH);
      if Skip(rest) == "" then Some(v) else None
  }

  /** The text of a value decodes to that value. */
  lemma DecodeText(v: Value)
    requires WellFormed(v) && Depth(v) <= MAX_DEPTH
    ensures Decode(TextOf(v)) == Some(v)
  {
    EmitStart(v, "");
    SkipSpaceOf("", TextOf(v));
    assert "" + TextOf(v) == TextOf(v);
    ParseValueOf(v, "", MAX_DEPTH);
  }

  /** Into a string: null leaves the empty string in place. */
  function AsString(v: Value): Option<Bytes>
    requires WellFormed(v)
  {
    match v
    case Str(body) => Some(Unquote(body))
    case Null => Some("")
    case _ => None
  }

  function AsBool(v: Value): Option<bool> {
    match v
    case True => Some(true)
    case False => Some(false)
    case Null => Some(false)
    case _ => None
  }

  const MAX_INT: int := 0x7FFF_FFFF_FFFF_FFFF

  function InRange(n: int): Option<int> {
    if -MAX_INT - 1 <= n <= MAX_INT then Some(n) else None
  }

  /** Into a 64-bit int: no fraction, no exponent, in range. */
  function AsInt(v: Value): Option<int>
    requires WellFormed(v)
  {
    match v
    case Number(sign, whole, frac, exp) =>
      if frac != "" || exp != "" then None
      else
        DigitsAreNumeral(whole);
        var n: int := NumberOf(whole, 10);
        InRange(if sign == "-" then -n else n)
    case Null => Some(0)
    case _ => None
  }

  function AsStrings(v: Value): Option<seq<Bytes>>
    requires WellFormed(v)
  {
    match v
    case EmptyArray(_) => Some([])
    case Null => Some([])
    case Array(items) => ItemStrings(items)
    case _ => None
  }

  function ItemStrings(i: Items): Option<seq<Bytes>>
    requires WellFormedItems(i)
    decreases i
  {
    match AsString(i.value)
    case None => None
    case Some(s) =>
      if i.tail.EndItems? then Some([s])
      else
        match ItemStrings(i.tail.next)
        case None => None
        case Some(more) => Some([s] + more)
  }

  function UnmarshalString(raw: Bytes): Option<Bytes> {
    match Decode(raw) case None => None case Some(v) => AsString(v)
  }

  function UnmarshalBool(raw: Bytes): Option<bool> {
    match Decode(raw) case None => None case Some(v) => AsBool(v)
  }

  function UnmarshalInt(raw: Bytes): Option<int> {
    match Decode(raw) case None => None case Some(v) => AsInt(v)
  }

  function UnmarshalStrings(raw: Bytes): Option<seq<Bytes>> {
    match Decode(raw) case None => None case Some(v) => AsStrings(v)
  }
}
