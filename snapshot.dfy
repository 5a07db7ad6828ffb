/** The snapshot layout and its two directions, as functions on values.

    A snapshot is the element count, then for each element in list order its
    type id followed by its payload. No entry carries its own length. The
    reader knows from the type id how much payload follows. */
module Snapshot {
  import opened Objects

  datatype LoadError =
    | TruncatedSnapshot        // the stream ends before the declared count is read
    | UnknownTypeId(id: nat)   // an entry names an id the factory does not know
    | MalformedSnapshot(at: nat) // the token at `at` is not of the type the reader expects

  datatype Result<T> = Ok(value: T) | Err(error: LoadError)

  /** Prepends the records `p` to a successful result; an error passes through. */
  function Then(p: seq<Record>, r: Result<seq<Record>>): Result<seq<Record>>
  {
    match r
    case Ok(rs) => Ok(p + rs)
    case Err(e) => Err(e)
  }

  /** Every record is tagged with a registered id and with the class registered under it. */
  ghost predicate WellTagged(rs: seq<Record>, reg: map<nat, Kind>)
  {
    forall k :: 0 <= k < |rs| ==> rs[k].id in reg && reg[rs[k].id] == rs[k].kind
  }

  // ----- Writing -----

  function EncodeEntry(r: Record): seq<Token>
  {
    [Word(r.id)] + Payload(r)
  }

  function EncodeEntries(rs: seq<Record>): seq<Token>
  {
    if rs == [] then [] else EncodeEntry(rs[0]) + EncodeEntries(rs[1..])
  }

  /** The whole snapshot of a list whose element values are `rs`. */
  function Encode(rs: seq<Record>): seq<Token>
  {
    [Word(|rs|)] + EncodeEntries(rs)
  }

  /** Appending one element to the list appends its entry to the stream. */
  lemma {:induction false} EncodeEntriesAppend(rs: seq<Record>, r: Record)
    ensures EncodeEntries(rs + [r]) == EncodeEntries(rs) + EncodeEntry(r)
  {
    if rs == [] {
      assert [r][1..] == [];
    } else {
      assert (rs + [r])[1..] == rs[1..] + [r];
      EncodeEntriesAppend(rs[1..], r);
    }
  }

  /** Each entry takes four tokens, and the `k`-th entry sits at offset `4 * k`. */
  lemma {:induction false} EncodeEntriesAt(rs: seq<Record>, k: nat)
    requires k < |rs|
    ensures |EncodeEntries(rs)| == 4 * |rs|
    ensures EncodeEntries(rs)[4 * k .. 4 * k + 4] == EncodeEntry(rs[k])
  {
    if k == 0 {
      EncodeEntriesLength(rs);
    } else {
      EncodeEntriesAt(rs[1..], k - 1);
    }
  }

  lemma {:induction false} EncodeEntriesLength(rs: seq<Record>)
    ensures |EncodeEntries(rs)| == 4 * |rs|
  {
    if rs != [] {
      EncodeEntriesLength(rs[1..]);
    }
  }

  /** Every snapshot, the empty one included, is the count followed by four
      tokens per element. */
  lemma EncodeSize(rs: seq<Record>)
    ensures |Encode(rs)| == 1 + 4 * |rs| && Encode(rs)[0] == Word(|rs|)
  {
    EncodeEntriesLength(rs);
  }

  /** The layout `save` writes: the count first, then, for the `k`-th element
      in list order, its type id immediately followed by `pos`,
      `acceleration` and `life`. */
  lemma EncodeLayout(rs: seq<Record>, k: nat)
    requires k < |rs|
    ensures |Encode(rs)| == 1 + 4 * |rs|
    ensures Encode(rs)[1 + 4 * k .. 5 + 4 * k]
         == [Word(rs[k].id), Vector(rs[k].pos), Vector(rs[k].acceleration), Int(rs[k].life)]
  {
    EncodeEntriesAt(rs, k);
    assert Encode(rs)[1 + 4 * k .. 5 + 4 * k] == EncodeEntries(rs)[4 * k .. 4 * k + 4];
  }

  // ----- Reading -----

  /** Reads one entry at offset `at`: the type id, then (once the factory knows
      the id) the payload, in the order it was written. */
  function DecodeEntry(t: seq<Token>, at: nat, reg: map<nat, Kind>): Result<Record>
  {
    if |t| <= at then Err(TruncatedSnapshot)
    else if !t[at].Word? then Err(MalformedSnapshot(at))
    else if t[at].n !in reg then Err(UnknownTypeId(t[at].n))
    else if |t| < at + 4 then Err(TruncatedSnapshot)
    else if !t[at + 1].Vector? then Err(MalformedSnapshot(at + 1))
    else if !t[at + 2].Vector? then Err(MalformedSnapshot(at + 2))
    else if !t[at + 3].Int? then Err(MalformedSnapshot(at + 3))
    else Ok(Record(t[at].n, reg[t[at].n], t[at + 1].v, t[at + 2].v, t[at + 3].i))
  }

  /** Reads `n` entries starting at offset `at`, stopping at the first error. */
  function DecodeEntries(t: seq<Token>, at: nat, n: nat, reg: map<nat, Kind>): (r: Result<seq<Record>>)
    ensures r.Ok? ==> |r.value| == n && (n > 0 ==> at + 4 * n <= |t|)
    decreases n
  {
    if n == 0 then Ok([])
    else match DecodeEntry(t, at, reg)
      case Err(e) => Err(e)
      case Ok(x) => Then([x], DecodeEntries(t, at + 4, n - 1, reg))
  }

  /** Reads a whole snapshot: the count, then that many entries. Tokens after
      the last entry are not read. */
  function Decode(t: seq<Token>, reg: map<nat, Kind>): (r: Result<seq<Record>>)
    ensures r.Ok? ==> |t| > 0 && t[0] == Word(|r.value|) && 1 + 4 * |r.value| <= |t|
  {
    if |t| == 0 then Err(TruncatedSnapshot)
    else if !t[0].Word? then Err(MalformedSnapshot(0))
    else DecodeEntries(t, 1, t[0].n, reg)
  }

  // ----- Round trip -----

  /** Reading back the entries of well-tagged records, wherever they sit in a
      stream, gives those records. */
  lemma {:induction false} DecodeEncodedEntries(t: seq<Token>, at: nat, rs: seq<Record>, reg: map<nat, Kind>)
    requires WellTagged(rs, reg)
    requires at + 4 * |rs| <= |t| && t[at .. at + 4 * |rs|] == EncodeEntries(rs)
    ensures DecodeEntries(t, at, |rs|, reg) == Ok(rs)
    decreases |rs|
  {
    if rs != [] {
      EncodeEntriesLength(rs[1..]);
      assert t[at .. at + 4] == EncodeEntry(rs[0]) by {
        assert t[at .. at + 4] == t[at .. at + 4 * |rs|][..4];
      }
      assert t[at] == Word(rs[0].id);
      assert DecodeEntry(t, at, reg) == Ok(rs[0]);
      assert t[at + 4 .. at + 4 + 4 * |rs[1..]|] == EncodeEntries(rs[1..]) by {
        assert t[at + 4 .. at + 4 + 4 * |rs[1..]|] == t[at .. at + 4 * |rs|][4..];
      }
      DecodeEncodedEntries(t, at + 4, rs[1..], reg);
      assert [rs[0]] + rs[1..] == rs;
    }
  }

  /** Save then load: with every id registered under its own class, loading
      the snapshot of a list gives back the same count, the same ids in the
      same order and the same field values. */
  lemma RoundTrip(rs: seq<Record>, reg: map<nat, Kind>)
    requires WellTagged(rs, reg)
    ensures Decode(Encode(rs), reg) == Ok(rs)
  {
    TrailingIgnored(rs, [], reg);
    assert Encode(rs) + [] == Encode(rs);
  }

  /** Tokens after the last declared entry do not change what is loaded. */
  lemma TrailingIgnored(rs: seq<Record>, rest: seq<Token>, reg: map<nat, Kind>)
    requires WellTagged(rs, reg)
    ensures Decode(Encode(rs) + rest, reg) == Ok(rs)
  {
    var t := Encode(rs) + rest;
    EncodeEntriesLength(rs);
    assert t[1 .. 1 + 4 * |rs|] == EncodeEntries(rs);
    DecodeEncodedEntries(t, 1, rs, reg);
  }

  /** What a successful read produced is exactly what was in the stream: the
      entries it read re-encode to the stream's prefix, and each record carries
      a registered id and the class registered under it. */
  lemma {:induction false} DecodedEntriesReencode(t: seq<Token>, at: nat, n: nat, reg: map<nat, Kind>)
    requires at <= |t| && DecodeEntries(t, at, n, reg).Ok?
    ensures var rs := DecodeEntries(t, at, n, reg).value;
      WellTagged(rs, reg) && t[at .. at + 4 * n] == EncodeEntries(rs)
    decreases n
  {
    if n > 0 {
      var x := DecodeEntry(t, at, reg).value;
      var tail := DecodeEntries(t, at + 4, n - 1, reg).value;
      var rs := [x] + tail;
      assert DecodeEntries(t, at, n, reg).value == rs;
      DecodedEntriesReencode(t, at + 4, n - 1, reg);
      assert t[at .. at + 4] == EncodeEntry(x) by {
        assert t[at] == Word(x.id) && t[at + 1] == Vector(x.pos);
        assert t[at + 2] == Vector(x.acceleration) && t[at + 3] == Int(x.life);
      }
      assert rs[0] == x && rs[1..] == tail;
      assert EncodeEntries(rs) == EncodeEntry(x) + EncodeEntries(tail);
      assert t[at .. at + 4 * n] == t[at .. at + 4] + t[at + 4 .. at + 4 + 4 * (n - 1)];
      assert WellTagged(rs, reg) by {
        assert x.id in reg && reg[x.id] == x.kind;
        forall k | 0 < k < |rs|
          ensures rs[k].id in reg && reg[rs[k].id] == rs[k].kind
        {
          assert rs[k] == tail[k - 1];
        }
      }
    }
  }

  /** Load then save: a snapshot that loads re-saves to the part of it that
      was read, and what it loads is well tagged. */
  lemma DecodeThenEncode(t: seq<Token>, reg: map<nat, Kind>)
    requires Decode(t, reg).Ok?
    ensures var rs := Decode(t, reg).value;
      WellTagged(rs, reg) && Encode(rs) == t[.. 1 + 4 * |rs|]
  {
    var rs := Decode(t, reg).value;
    DecodedEntriesReencode(t, 1, t[0].n, reg);
    assert t[.. 1 + 4 * |rs|] == [t[0]] + t[1 .. 1 + 4 * |rs|];
  }

  /** Saving, loading and saving again writes the same snapshot twice. */
  lemma ResaveIdentical(rs: seq<Record>, reg: map<nat, Kind>)
    requires WellTagged(rs, reg)
    ensures Decode(Encode(rs), reg).Ok?
    ensures Encode(Decode(Encode(rs), reg).value) == Encode(rs)
  {
    RoundTrip(rs, reg);
  }

  /** A snapshot that names an unregistered id fails to load, and the error
      names the first such id. */
  lemma UnknownIdRejected(rs: seq<Record>, reg: map<nat, Kind>, k: nat)
    requires k < |rs| && rs[k].id !in reg
    requires WellTagged(rs[..k], reg)
    ensures Decode(Encode(rs), reg) == Err(UnknownTypeId(rs[k].id))
  {
    var t := Encode(rs);
    EncodeEntriesLength(rs);
    EncodeEntriesLength(rs[..k]);
    assert rs == rs[..k] + rs[k..];
    EncodeEntriesSplit(rs[..k], rs[k..]);
    assert t[1 .. 1 + 4 * k] == EncodeEntries(rs[..k]);
    DecodeEncodedEntries(t, 1, rs[..k], reg);
    EncodeEntriesAt(rs, k);
    assert t[1 + 4 * k] == Word(rs[k].id);
    DecodeEntriesSplit(t, 1, k, |rs| - k, reg);
  }

  lemma {:induction false} EncodeEntriesSplit(a: seq<Record>, b: seq<Record>)
    ensures EncodeEntries(a + b) == EncodeEntries(a) + EncodeEntries(b)
  {
    if a == [] {
      assert a + b == b;
    } else {
      assert (a + b)[1..] == a[1..] + b;
      EncodeEntriesSplit(a[1..], b);
    }
  }

  /** Reading `m + n` entries is reading `m`, then `n` more after them. */
  lemma {:induction false} DecodeEntriesSplit(t: seq<Token>, at: nat, m: nat, n: nat, reg: map<nat, Kind>)
    ensures DecodeEntries(t, at, m + n, reg)
         == match DecodeEntries(t, at, m, reg)
            case Err(e) => Err(e)
            case Ok(p) => Then(p, DecodeEntries(t, at + 4 * m, n, reg))
    decreases m
  {
    if m == 0 {
      match DecodeEntries(t, at, n, reg)
      case Ok(rs) => assert [] + rs == rs;
      case Err(_) =>
    } else {
      DecodeEntriesSplit(t, at + 4, m - 1, n, reg);
      match DecodeEntry(t, at, reg)
      case Err(_) =>
      case Ok(x) =>
        match DecodeEntries(t, at + 4, m - 1, reg)
        case Err(_) =>
        case Ok(p) =>
          match DecodeEntries(t, at + 4 * m, n, reg)
          case Err(_) =>
          case Ok(q) => assert [x] + (p + q) == ([x] + p) + q;
    }
  }

  /** Entries cut short anywhere inside fail with `TruncatedSnapshot` once
      every complete entry before the cut has been read. */
  lemma {:induction false} TruncatedEntries(t: seq<Token>, at: nat, rs: seq<Record>, reg: map<nat, Kind>)
    requires WellTagged(rs, reg)
    requires at <= |t| && |t| - at < |EncodeEntries(rs)|
    requires t[at..] == EncodeEntries(rs)[.. |t| - at]
    ensures DecodeEntries(t, at, |rs|, reg) == Err(TruncatedSnapshot)
    decreases |rs|
  {
    EncodeEntriesLength(rs);
    EncodeEntriesLength(rs[1..]);
    assert EncodeEntries(rs) == EncodeEntry(rs[0]) + EncodeEntries(rs[1..]);
    if |t| < at + 4 {
      assert |t| > at ==> t[at] == EncodeEntries(rs)[0] == Word(rs[0].id);
      assert DecodeEntry(t, at, reg) == Err(TruncatedSnapshot);
    } else {
      assert t[at .. at + 4] == EncodeEntry(rs[0]) by {
        assert t[at .. at + 4] == t[at..][..4];
      }
      assert DecodeEntry(t, at, reg) == Ok(rs[0]);
      assert t[at + 4..] == EncodeEntries(rs[1..])[.. |t| - (at + 4)] by {
        assert t[at + 4..] == t[at..][4..];
      }
      TruncatedEntries(t, at + 4, rs[1..], reg);
    }
  }

  /** A snapshot cut short anywhere, of a list whose ids are all registered,
      fails to load with `TruncatedSnapshot`. */
  lemma TruncationRejected(rs: seq<Record>, reg: map<nat, Kind>, cut: nat)
    requires WellTagged(rs, reg)
    requires cut < |Encode(rs)|
    ensures Decode(Encode(rs)[..cut], reg) == Err(TruncatedSnapshot)
  {
    var t := Encode(rs)[..cut];
    EncodeEntriesLength(rs);
    if cut > 0 {
      assert t[1..] == EncodeEntries(rs)[.. cut - 1];
      TruncatedEntries(t, 1, rs, reg);
    }
  }

  /** One red and one blue effect survive a
      save and a load with their ids, order and fields intact. */
  lemma TwoEffectsScenario(reg: map<nat, Kind>, redId: nat, blueId: nat)
    requires redId in reg && reg[redId] == Red
    requires blueId in reg && reg[blueId] == Blue
    ensures var rs := [Record(redId, Red, Vec2(1.0, 1.0), Vec2(0.0, 1.0), 10),
                       Record(blueId, Blue, Vec2(5.0, 5.0), Vec2(1.0, 0.0), 3)];
      Decode(Encode(rs), reg) == Ok(rs)
  {
    var rs := [Record(redId, Red, Vec2(1.0, 1.0), Vec2(0.0, 1.0), 10),
               Record(blueId, Blue, Vec2(5.0, 5.0), Vec2(1.0, 0.0), 3)];
    RoundTrip(rs, reg);
  }
}
