/** The shared key-value backend, as an immutable map from keys to entries.
    Each entry holds a value and, optionally, the absolute time (in whole
    seconds) until which it lives. Only the commands the application issues
    are modelled, each as a pure transition on the map. */
module Backend {
  import opened Wrappers
  import opened Records

  /** A string value (a conversation record, written with str() and read back
      with eval(), which the model treats as an exact round trip) or a list of
      request timestamps. */
  datatype Value = Record(conv: Conversation) | List(items: seq<int>)

  datatype Entry = Entry(value: Value, expiry: Option<int>)

  type Store = map<string, Entry>

  /** The only command failure the model keeps: a command applied to a key of
      the other kind. */
  datatype StoreError = WrongType

  const WrongTypeText := "WRONGTYPE Operation against a key holding the wrong kind of value"

  function ErrorText(e: StoreError): string
  {
    match e
    case WrongType => WrongTypeText
  }

  /** A key with an expiry is gone once the clock has passed that instant. */
  predicate Live(e: Entry, now: int)
  {
    e.expiry.None? || now <= e.expiry.value
  }

  predicate LiveKey(s: Store, k: string, now: int)
  {
    k in s && Live(s[k], now)
  }

  predicate HasPrefix(k: string, p: string)
  {
    |p| <= |k| && k[..|p|] == p
  }

  /** The key of `id` in the namespace `prefix`. */
  function Namespaced(prefix: string, id: string): (k: string)
    ensures HasPrefix(k, prefix) && k[|prefix|..] == id
  {
    prefix + id
  }

  /** KEYS p* : every live key that starts with p. */
  function KeysWithPrefix(s: Store, p: string, now: int): (ks: set<string>)
    ensures forall k :: k in ks <==> LiveKey(s, k, now) && HasPrefix(k, p)
  {
    set k | k in s && Live(s[k], now) && HasPrefix(k, p)
  }

  /** GET k : a record, nothing for a missing or expired key, an error for a list. */
  function Get(s: Store, k: string, now: int): (r: Result<Option<Conversation>, StoreError>)
    ensures r == Success(None) <==> !LiveKey(s, k, now)
    ensures r.Failure? <==> LiveKey(s, k, now) && s[k].value.List?
    ensures forall c :: r == Success(Some(c)) <==> LiveKey(s, k, now) && s[k].value == Record(c)
  {
    if !LiveKey(s, k, now) then Success(None)
    else match s[k].value
      case Record(c) => Success(Some(c))
      case List(_) => Failure(WrongType)
  }

  /** SET k v : overwrites whatever was there and clears any expiry. */
  function Set(s: Store, k: string, v: Value): (s': Store)
    ensures k in s' && s'[k] == Entry(v, None)
    ensures s' - {k} == s - {k}
  {
    s[k := Entry(v, None)]
  }

  /** DEL k : removing a missing key is not an error. */
  function Del(s: Store, k: string): (s': Store)
    ensures k !in s'
    ensures s' - {k} == s - {k}
    ensures k !in s ==> s' == s
  {
    s - {k}
  }

  /** LRANGE k 0 -1 : the whole list, empty for a missing or expired key. */
  function LRange(s: Store, k: string, now: int): (r: Result<seq<int>, StoreError>)
    ensures r.Failure? <==> LiveKey(s, k, now) && s[k].value.Record?
    ensures r.Success? && LiveKey(s, k, now) ==> r.value == s[k].value.items
    ensures !LiveKey(s, k, now) ==> r == Success([])
  {
    if !LiveKey(s, k, now) then Success([])
    else match s[k].value
      case List(items) => Success(items)
      case Record(_) => Failure(WrongType)
  }

  /** LPUSH k x : puts x at the head of the list, creating it (without an
      expiry) when the key is missing or expired. */
  function LPush(s: Store, k: string, x: int, now: int): (r: Result<Store, StoreError>)
    ensures r.Failure? <==> LiveKey(s, k, now) && s[k].value.Record?
    ensures r.Success? ==> r.value - {k} == s - {k} && k in r.value
    ensures r.Success? && LiveKey(s, k, now) ==>
      r.value[k] == Entry(List([x] + s[k].value.items), s[k].expiry)
    ensures !LiveKey(s, k, now) ==> r == Success(s[k := Entry(List([x]), None)])
  {
    if !LiveKey(s, k, now) then Success(s[k := Entry(List([x]), None)])
    else match s[k].value
      case List(items) => Success(s[k := Entry(List([x] + items), s[k].expiry)])
      case Record(_) => Failure(WrongType)
  }

  /** EXPIRE k secs : sets the key to die secs seconds from now; a missing key
      is left alone. */
  function Expire(s: Store, k: string, secs: int, now: int): (s': Store)
    ensures s' - {k} == s - {k}
    ensures LiveKey(s, k, now) ==> k in s' && s'[k] == Entry(s[k].value, Some(now + secs))
    ensures !LiveKey(s, k, now) ==> s' == s
  {
    if LiveKey(s, k, now) then s[k := Entry(s[k].value, Some(now + secs))] else s
  }

  /** Two maps that agree off k, one of which holds e at k: the second is the
      first updated at k. */
  lemma SameExceptAt(s: Store, s': Store, k: string, e: Entry)
    requires s' - {k} == s - {k}
    requires k in s' && s'[k] == e
    ensures s' == s[k := e]
  {
    assert s'.Keys == (s - {k}).Keys + {k};
    forall x | x in s'
      ensures s'[x] == s[k := e][x]
    {
      if x != k {
        assert x in s' - {k};
      }
    }
  }
}
