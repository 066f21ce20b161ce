/** Objects written without whitespace, and how the strict reader reads them back. */
module JsonPrint {
  import opened Text
  import opened Utf8
  import opened JsonGrammar
  import opened JsonParser
  import opened JsonString
  import opened JsonDecode
  import opened JsonLayout
  import opened StrictJson

  function StringValue(s: Bytes): Value
    requires Ascii(s)
  {
    Str(QuoteBody(s))
  }

  function NatValue(n: nat): Value { Value.Number("", Decimal(n), "", "") }

  /** A compact object from keys that need no escapes. */
  function Compact(fields: seq<(Bytes, Value)>): Value {
    if fields == [] then EmptyObject("") else Object(CompactMembers(fields))
  }

  function CompactMembers(fields: seq<(Bytes, Value)>): Members
    requires fields != []
  {
    Members("", fields[0].0, "", "", fields[0].1,
      if |fields| == 1 then EndMembers("") else NextMember("", CompactMembers(fields[1..])))
  }

  /** A key written as it is. */
  predicate PlainKey(k: Bytes) {
    forall i :: 0 <= i < |k| ==> ' ' <= k[i] && k[i] as int < 0x80 && k[i] != '"' && k[i] != '\\'
  }

  lemma {:induction false} PlainKeyReads(k: Bytes)
    requires PlainKey(k)
    ensures WellFormedBody(k) && Unquote(k) == k && ValidUtf8(k)
  {
    if k != "" {
      PlainKeyReads(k[1..]);
      assert k == [k[0]] + k[1..];
    }
  }

  predicate PlainFields(fields: seq<(Bytes, Value)>, allowed: set<Bytes>, taken: set<Bytes>) {
    && (forall i :: 0 <= i < |fields| ==> PlainKey(fields[i].0) && fields[i].0 in allowed && fields[i].0 !in taken)
    && (forall i, j :: 0 <= i < j < |fields| ==> fields[i].0 != fields[j].0)
  }

  predicate GoodValues(fields: seq<(Bytes, Value)>, depth: nat) {
    forall i :: 0 <= i < |fields| ==>
      WellFormed(fields[i].1) && Clean(fields[i].1) && Depth(fields[i].1) <= depth
  }

  lemma {:induction false} CompactReads(fields: seq<(Bytes, Value)>, allowed: set<Bytes>, taken: set<Bytes>,
                                        values: Values, depth: nat)
    requires fields != [] && PlainFields(fields, allowed, taken) && GoodValues(fields, depth)
    requires values.Keys <= taken
    ensures var m := CompactMembers(fields);
      && WellFormedMembers(m) && CleanMembers(m) && DepthMembers(m) <= depth && Judged(m, allowed, taken)
      && (forall k :: k in values ==> k in Collect(values, m) && Collect(values, m)[k] == values[k])
      && (forall i :: 0 <= i < |fields| ==>
          fields[i].0 in Collect(values, m) && Collect(values, m)[fields[i].0] == fields[i].1)
      && (forall k :: k in Collect(values, m) ==> k in values || exists i :: 0 <= i < |fields| && fields[i].0 == k)
  {
    hide WellFormed, Clean, Depth, WellFormedBody, Unquote, ValidUtf8;
    PlainKeyReads(fields[0].0);
    if |fields| > 1 {
      var rest := fields[1..];
      forall i | 0 <= i < |rest|
        ensures PlainKey(rest[i].0) && rest[i].0 in allowed && rest[i].0 !in taken + {fields[0].0}
      {
        assert rest[i] == fields[i + 1];
      }
      forall i, j | 0 <= i < j < |rest| ensures rest[i].0 != rest[j].0 {
        assert rest[i] == fields[i + 1] && rest[j] == fields[j + 1];
      }
      var more := values[fields[0].0 := fields[0].1];
      CompactReads(rest, allowed, taken + {fields[0].0}, more, depth);
      var m := CompactMembers(fields);
      var out := Collect(values, m);
      assert out == Collect(more, CompactMembers(rest));
      forall i | 0 <= i < |fields| ensures fields[i].0 in out && out[fields[i].0] == fields[i].1 {
        if i == 0 { assert fields[0].0 in more; } else { assert fields[i] == rest[i - 1]; }
      }
      forall k | k in out ensures k in values || exists i :: 0 <= i < |fields| && fields[i].0 == k {
        if k !in values && k != fields[0].0 {
          var i :| 0 <= i < |rest| && rest[i].0 == k;
          assert fields[i + 1].0 == k;
        }
      }
    }
  }

  /** The strict reader returns the printed fields. */
  lemma CompactAccepted(fields: seq<(Bytes, Value)>, allowed: set<Bytes>, depth: nat)
    requires fields != [] && PlainFields(fields, allowed, {}) && GoodValues(fields, depth) && depth <= MAX_DEPTH
    ensures var v := Compact(fields);
      && WellFormed(v) && Clean(v) && Depth(v) <= 1 + depth && Acceptable(v, allowed)
      && var r := StrictObject(TextOf(v), allowed);
        && r.Accepted?
        && (forall i :: 0 <= i < |fields| ==> fields[i].0 in r.fields && r.fields[fields[i].0] == TextOf(fields[i].1))
        && (forall k :: k in r.fields ==> exists i :: 0 <= i < |fields| && fields[i].0 == k)
  {
    hide Collect, Judged, CompactMembers, PlainFields, GoodValues, StrictObject, Emit, WellFormedMembers, CleanMembers,
      DepthMembers;
    CompactReads(fields, allowed, {}, map[], depth);
    var v := Compact(fields);
    assert "" + TextOf(v) == TextOf(v);
    StrictOfTree("", v, allowed);
  }

  /** With a field for every allowed key, the reader that asks for all of them succeeds. */
  lemma CompactAllFields(fields: seq<(Bytes, Value)>, allowed: set<Bytes>, depth: nat)
    requires fields != [] && PlainFields(fields, allowed, {}) && GoodValues(fields, depth) && depth <= MAX_DEPTH
    requires forall k :: k in allowed ==> exists i :: 0 <= i < |fields| && fields[i].0 == k
    ensures var f := AllFields(TextOf(Compact(fields)), allowed);
      f.Some? && forall i :: 0 <= i < |fields| ==> fields[i].0 in f.value && f.value[fields[i].0] == TextOf(fields[i].1)
  {
    hide StrictObject, Emit, Compact, PlainFields, GoodValues, Acceptable, Clean, Depth, WellFormed;
    CompactAccepted(fields, allowed, depth);
    var raw := TextOf(Compact(fields));
    AcceptedKeys(raw, allowed);
    var f := StrictObject(raw, allowed).fields;
    assert forall k :: k in allowed ==> k in f;
    assert f.Keys == allowed;
  }

  /** A printed string decodes to the string. */
  lemma StringReads(s: Bytes)
    requires Ascii(s)
    ensures var v := StringValue(s);
      WellFormed(v) && Clean(v) && Depth(v) == 0 && UnmarshalString(TextOf(v)) == Some(s)
  {
    hide Decode, Emit;
    QuoteDecodes(s);
    AsciiIsValid(QuoteBody(s));
    DecodeText(StringValue(s));
  }

  /** A printed number decodes to the number. */
  lemma NatReads(n: nat)
    requires n <= MAX_INT
    ensures var v := NatValue(n);
      WellFormed(v) && Clean(v) && Depth(v) == 0 && UnmarshalInt(TextOf(v)) == Some(n)
  {
    hide Decode, Emit;
    NumberOfDecimal(n);
    DecodeText(NatValue(n));
  }

  lemma BoolReads(b: bool)
    ensures var v := if b then True else False;
      WellFormed(v) && Clean(v) && Depth(v) == 0 && UnmarshalBool(TextOf(v)) == Some(b)
  {
    hide Decode, Emit;
    DecodeText(if b then True else False);
  }
}
