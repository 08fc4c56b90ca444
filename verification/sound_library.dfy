/** The audio lookup tables (Assets/Scripts/audio/SoundLibrary.cs): SFX and BGM clips by id,
    first match wins, plus a fallback SFX clip. A slot of a table may be empty, and so may the
    clip of an entry. The asset is never written after it is configured, so it is a value. */
module SoundLibrary {
  import opened Optional

  /** An audio clip, known by its asset name. */
  datatype Clip = Clip(name: string)

  /** SfxEntry and BgmEntry, which have the same shape. */
  datatype Entry = Entry(id: string, clip: Option<Clip>)

  /** A slot matches a query when it holds an entry with that id. */
  predicate Matches(e: Option<Entry>, id: string)
  {
    e.Some? && e.value.id == id
  }

  /** The scan of both lookups: empty slots are skipped and the first entry with the id
      answers, even when its own clip is missing; no match gives no clip. */
  function Lookup(entries: seq<Option<Entry>>, id: string): (r: Option<Clip>)
    ensures (forall k | 0 <= k < |entries| :: !Matches(entries[k], id)) ==> r.None?
    ensures |entries| > 0 && Matches(entries[0], id) ==> r == entries[0].value.clip
    decreases |entries|
  {
    if |entries| == 0 then None
    else if entries[0].Some? && entries[0].value.id == id then entries[0].value.clip
    else Lookup(entries[1..], id)
  }

  /** The first slot at or after `from` that matches `id`, if any. */
  function FirstMatch(entries: seq<Option<Entry>>, id: string, from: nat): (r: Option<nat>)
    requires from <= |entries|
    ensures r.Some? ==>
              from <= r.value < |entries| && Matches(entries[r.value], id) &&
              forall k | from <= k < r.value :: !Matches(entries[k], id)
    ensures r.None? ==> forall k | from <= k < |entries| :: !Matches(entries[k], id)
    decreases |entries| - from
  {
    if from == |entries| then None
    else if Matches(entries[from], id) then Some(from)
    else FirstMatch(entries, id, from + 1)
  }

  /** The lookup answers with the clip of the first matching slot: the entry at index `k` when
      `k` matches and no slot before it does. */
  lemma {:induction false} LookupIsFirstMatch(entries: seq<Option<Entry>>, id: string, k: nat)
    requires k < |entries| && Matches(entries[k], id)
    requires forall j | 0 <= j < k :: !Matches(entries[j], id)
    ensures Lookup(entries, id) == entries[k].value.clip
    decreases k
  {
    if k > 0 {
      assert !Matches(entries[0], id);
      var rest := entries[1..];
      assert forall j | 0 <= j < k - 1 :: rest[j] == entries[j + 1];
      LookupIsFirstMatch(rest, id, k - 1);
    }
  }

  /** Slots appended after a match never change what an id maps to. */
  lemma LookupIgnoresLaterSlots(entries: seq<Option<Entry>>, more: seq<Option<Entry>>, id: string)
    requires FirstMatch(entries, id, 0).Some?
    ensures Lookup(entries + more, id) == Lookup(entries, id)
  {
    var k := FirstMatch(entries, id, 0).value;
    var all := entries + more;
    assert forall j | 0 <= j <= k :: all[j] == entries[j];
    LookupIsFirstMatch(entries, id, k);
    LookupIsFirstMatch(all, id, k);
  }

  /** The asset as configured in the inspector. */
  datatype SoundLibrary = SoundLibrary(sfx: seq<Option<Entry>>, fallbackSfx: Option<Clip>, bgm: seq<Option<Entry>>)
  {
    /** The clip of the first SFX entry with the id, nothing when there is none. */
    function GetSFX(id: string): (r: Option<Clip>)
      ensures (forall k | 0 <= k < |sfx| :: !Matches(sfx[k], id)) ==> r.None?
      ensures forall k | 0 <= k < |sfx| && Matches(sfx[k], id) && (forall j | 0 <= j < k :: !Matches(sfx[j], id)) ::
                r == sfx[k].value.clip
    {
      FirstMatchClip(sfx, id);
      Lookup(sfx, id)
    }

    /** The same lookup over the BGM table. */
    function GetBGM(id: string): (r: Option<Clip>)
      ensures (forall k | 0 <= k < |bgm| :: !Matches(bgm[k], id)) ==> r.None?
      ensures forall k | 0 <= k < |bgm| && Matches(bgm[k], id) && (forall j | 0 <= j < k :: !Matches(bgm[j], id)) ::
                r == bgm[k].value.clip
    {
      FirstMatchClip(bgm, id);
      Lookup(bgm, id)
    }

    /** The configured fallback clip, whatever the tables hold. */
    function GetFallbackSFX(): (r: Option<Clip>)
      ensures r == fallbackSfx
    {
      fallbackSfx
    }
  }

  /** LookupIsFirstMatch for every candidate index at once. */
  lemma FirstMatchClip(entries: seq<Option<Entry>>, id: string)
    ensures forall k | 0 <= k < |entries| && Matches(entries[k], id) && (forall j | 0 <= j < k :: !Matches(entries[j], id)) ::
              Lookup(entries, id) == entries[k].value.clip
  {
    forall k | 0 <= k < |entries| && Matches(entries[k], id) && (forall j | 0 <= j < k :: !Matches(entries[j], id))
      ensures Lookup(entries, id) == entries[k].value.clip
    {
      LookupIsFirstMatch(entries, id, k);
    }
  }
}
