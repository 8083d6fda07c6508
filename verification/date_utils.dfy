/** Date rehydration after storage: listed top-level fields holding a
    date string are replaced by the `Date` it denotes.

    The JavaScript `Date` constructor is a parameter: `parse(s)` is the
    date `new Date(s)` denotes, or `None` when that date is invalid. */
module DateUtils {
  import opened Wrappers
  import opened Values
  import Seqs

  type Parser = string -> Option<Date>

  /** `parseDate`: the parsed date, or `null` for an invalid date. It
      applies the same validity test as the rehydration of one field, so a
      non-empty field becomes exactly the date `parseDate` gives, and stays
      a string exactly when `parseDate` gives `null`. */
  function ParseDate(parse: Parser, s: string): (r: Option<Date>)
    ensures r.None? <==> parse(s).None?
    ensures s != "" ==> Revive(VStr(s), parse) == (if r.Some? then VDate(r.value) else VStr(s))
  {
    parse(s)
  }

  /** What one listed field holds afterwards: a non-empty string that
      parses becomes its date; everything else is left as it was. */
  function Revive(v: Value, parse: Parser): (r: Value)
    ensures r != v <==> v.VStr? && v.s != "" && parse(v.s).Some?
    ensures r != v ==> r == VDate(parse(v.s).value)
    ensures !v.VStr? ==> r == v
  {
    if v.VStr? && v.s != "" && parse(v.s).Some? then VDate(parse(v.s).value) else v
  }

  /** Decimal spelling of an array index, as used for its property key. */
  function IndexKey(n: nat): string
    decreases n
  {
    if n < 10 then ["0123456789"[n]] else IndexKey(n / 10) + ["0123456789"[n % 10]]
  }

  /** The own properties of the first `n` elements of an array. */
  function IndexEntries(xs: seq<Value>, n: nat): map<string, Value>
    requires n <= |xs|
    decreases n
  {
    if n == 0 then map[] else IndexEntries(xs, n - 1)[IndexKey(n - 1) := xs[n - 1]]
  }

  /** `{ ...obj }` for an object: the own enumerable properties. A `Date`
      has none; an array contributes its elements under index keys. */
  function Spread(obj: Value): map<string, Value>
    requires IsObject(obj)
  {
    match obj
    case VObj(m) => m
    case VArr(xs) => IndexEntries(xs, |xs|)
    case _ => map[]
  }

  /** The `dateFields.forEach` loop: for each listed field in turn, a
      truthy string value that parses to a valid date is replaced. */
  function ReviveFields(m: map<string, Value>, fields: seq<string>, parse: Parser): (r: map<string, Value>)
    ensures r.Keys == m.Keys
    ensures forall k :: k in m ==> r[k] == (if k in fields then Revive(m[k], parse) else m[k])
    decreases |fields|
  {
    if |fields| == 0 then m
    else
      var f := fields[0];
      var v := Get(m, f);
      var m1 := if Truthy(v) && v.VStr? && parse(v.s).Some? then m[f := VDate(parse(v.s).value)] else m;
      assert forall k :: k in fields <==> k == f || k in fields[1..];
      ReviveFields(m1, fields[1..], parse)
  }

  /** `deserializeDates`: a falsy or non-object value is returned as it is;
      an object is shallow-copied and its listed fields revived. */
  function DeserializeDates(obj: Value, fields: seq<string>, parse: Parser): (r: Value)
    ensures !(Truthy(obj) && IsObject(obj)) ==> r == obj
    ensures Truthy(obj) && IsObject(obj) ==>
      && r.VObj?
      && r.fields.Keys == Spread(obj).Keys
      && (forall k :: k in Spread(obj) && k !in fields ==> r.fields[k] == Spread(obj)[k])
      && (forall k :: k in Spread(obj) && k in fields ==> r.fields[k] == Revive(Spread(obj)[k], parse))
  {
    if !Truthy(obj) || !IsObject(obj) then obj
    else VObj(ReviveFields(Spread(obj), fields, parse))
  }

  /** `deserializeDatesInArray`: element-wise, same length and order. */
  function DeserializeDatesInArray(xs: seq<Value>, fields: seq<string>, parse: Parser): (ys: seq<Value>)
    ensures |ys| == |xs|
    ensures forall i :: 0 <= i < |xs| ==> ys[i] == DeserializeDates(xs[i], fields, parse)
  {
    Seqs.Map(xs, (v: Value) => DeserializeDates(v, fields, parse))
  }

  /** Reviving a field twice is reviving it once. */
  lemma ReviveIdempotent(v: Value, parse: Parser)
    ensures Revive(Revive(v, parse), parse) == Revive(v, parse)
  {
  }

  /** Rehydrating twice with the same fields is rehydrating once. */
  lemma DeserializeIdempotent(obj: Value, fields: seq<string>, parse: Parser)
    ensures DeserializeDates(DeserializeDates(obj, fields, parse), fields, parse)
         == DeserializeDates(obj, fields, parse)
  {
    var once := DeserializeDates(obj, fields, parse);
    if Truthy(obj) && IsObject(obj) {
      var twice := DeserializeDates(once, fields, parse);
      forall k | k in once.fields
        ensures twice.fields[k] == once.fields[k]
      {
        if k in fields {
          ReviveIdempotent(Spread(obj)[k], parse);
        }
      }
    }
  }

  /** A date string that parses comes back as the date it denotes, and a
      value that is already a date stays that date. */
  lemma RoundTrip(m: map<string, Value>, field: string, fields: seq<string>, text: string, d: Date, parse: Parser)
    requires field in fields
    requires field in m && m[field] == VStr(text)
    requires text != "" && parse(text) == Some(d)
    ensures DeserializeDates(VObj(m), fields, parse).fields[field] == VDate(d)
    ensures DeserializeDates(VObj(m[field := VDate(d)]), fields, parse).fields[field] == VDate(d)
  {
  }
}
