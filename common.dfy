/** Small building blocks shared by the model: optional values, results of store
    queries, Python-style truthiness and slicing, and first-occurrence deduplication. */
module Common {

  datatype Option<+T> = None | Some(value: T)
  {
    function GetOr(default: T): T
    {
      match this
      case Some(v) => v
      case None => default
    }
  }

  /** The outcome of work that queries the store: a value, or the id whose query raised. */
  datatype Result<+T> = Ok(value: T) | Err(failedId: string)

  /** Python truthiness of an optional string: `None` and `""` are both false. */
  predicate Truthy(s: Option<string>)
  {
    s.Some? && s.value != ""
  }

  /** Python truthiness of an optional number: `None` and `0` are both false. */
  predicate TruthyReal(x: Option<real>)
  {
    x.Some? && x.value != 0.0
  }

  /** Python's `s[:n]`. */
  function Take(s: string, n: nat): (r: string)
    ensures |r| == if |s| <= n then |s| else n
    ensures r <= s
  {
    if |s| <= n then s else s[..n]
  }

  /** Python's `"  " * level`: two spaces per level. */
  function Indent(level: nat): (r: string)
    ensures |r| == 2 * level
    ensures forall k :: 0 <= k < |r| ==> r[k] == ' '
  {
    if level == 0 then "" else Indent(level - 1) + "  "
  }

  /** The elements of `s` in the order of their first occurrence, each once. */
  function Dedup<T(==)>(s: seq<T>): (r: seq<T>)
  {
    if s == [] then []
    else
      var d := Dedup(s[..|s| - 1]);
      if s[|s| - 1] in d then d else d + [s[|s| - 1]]
  }

  /** Every entry of `a` is an entry of `b`: a cache that went from `a` to `b` only gained
      entries. */
  predicate Extends<K, V(==)>(a: map<K, V>, b: map<K, V>)
  {
    forall k {:trigger a[k]} :: k in a ==> k in b && b[k] == a[k]
  }

  lemma ExtendsTransitive<K, V>(a: map<K, V>, b: map<K, V>, c: map<K, V>)
    requires Extends(a, b) && Extends(b, c)
    ensures Extends(a, c)
  {
  }

  predicate Distinct<T(==)>(s: seq<T>)
  {
    forall i, j :: 0 <= i < j < |s| ==> s[i] != s[j]
  }

  /** Deduplication keeps exactly the elements of the input, each once. */
  lemma {:induction false} DedupSpec<T>(s: seq<T>)
    ensures Distinct(Dedup(s))
    ensures forall x :: x in Dedup(s) <==> x in s
  {
    if s != [] {
      var init := s[..|s| - 1];
      DedupSpec(init);
      assert s == init + [s[|s| - 1]];
    }
  }

  /** Deduplicating a sequence that has no repeated element changes nothing. */
  lemma {:induction false} DedupOfDistinct<T>(s: seq<T>)
    requires Distinct(s)
    ensures Dedup(s) == s
  {
    if s != [] {
      var init := s[..|s| - 1];
      DedupOfDistinct(init);
      assert s == init + [s[|s| - 1]];
      assert s[|s| - 1] !in init;
    }
  }

  /** The non-empty strings of `s`, in order. */
  function NonEmpty(s: seq<string>): (r: seq<string>)
    ensures forall x :: x in r <==> x in s && x != ""
  {
    if s == [] then []
    else
      var init := s[..|s| - 1];
      assert s == init + [s[|s| - 1]];
      if s[|s| - 1] == "" then NonEmpty(init) else NonEmpty(init) + [s[|s| - 1]]
  }
}
