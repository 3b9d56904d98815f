/** The signed policy record of one Tentacle: seven sliders, a ban and its lineage. */
module Nature {
  import opened Wrappers
  import opened Text

  const NATURE_SCHEMA_VERSION: nat := 1
  const NATURE_ID_HEX_BYTES: nat := 32
  const MAX_SLIDER: nat := 100

  type U8 = n: nat | n < 0x100
  type I16 = n: int | -0x8000 <= n < 0x8000

  datatype NatureTrait =
    | Engagement | Growth | Wealth | Influence | Cooperation | Stability | Transparency
  {
    function Name(): (s: string)
      ensures IsWord(s) && |s| <= 12
      ensures Lower(s) == s
    {
      match this
      case Engagement => "engagement"
      case Growth => "growth"
      case Wealth => "wealth"
      case Influence => "influence"
      case Cooperation => "cooperation"
      case Stability => "stability"
      case Transparency => "transparency"
    }
  }

  /** `NatureTrait::from_str` on a word: the surrounding trim has nothing to remove. */
  function ParseTrait(word: string): Option<NatureTrait> {
    var w := Lower(word);
    if w == "engagement" then Some(Engagement)
    else if w == "growth" then Some(Growth)
    else if w == "wealth" then Some(Wealth)
    else if w == "influence" then Some(Influence)
    else if w == "cooperation" then Some(Cooperation)
    else if w == "stability" then Some(Stability)
    else if w == "transparency" then Some(Transparency)
    else None
  }

  datatype SacredBan = Recruitment | Spawning | Governance | Profit | MemorySharing

  datatype TentacleNature = TentacleNature(
    schemaVersion: nat,
    natureId: string,
    generation: nat,
    parentNatureId: Option<string>,
    engagement: U8,
    growth: U8,
    wealth: U8,
    influence: U8,
    cooperation: U8,
    stability: U8,
    transparency: U8,
    sacredBan: SacredBan)
  {
    function Value(t: NatureTrait): U8 {
      match t
      case Engagement => engagement
      case Growth => growth
      case Wealth => wealth
      case Influence => influence
      case Cooperation => cooperation
      case Stability => stability
      case Transparency => transparency
    }

    function SetValue(t: NatureTrait, value: U8): TentacleNature {
      match t
      case Engagement => this.(engagement := value)
      case Growth => this.(growth := value)
      case Wealth => this.(wealth := value)
      case Influence => this.(influence := value)
      case Cooperation => this.(cooperation := value)
      case Stability => this.(stability := value)
      case Transparency => this.(transparency := value)
    }

    predicate Valid() {
      && schemaVersion == NATURE_SCHEMA_VERSION
      && IsNatureId(natureId)
      && (match parentNatureId
          case None => generation == 0
          case Some(parent) => generation != 0 && IsNatureId(parent) && parent != natureId)
      && (forall t: NatureTrait :: Value(t) <= MAX_SLIDER)
    }

    /** Identifier, sliders and ban are the drawn ones. */
    predicate IsDrawn(draw: Draw) {
      natureId == draw.natureId && sacredBan == draw.sacredBan && forall t: NatureTrait :: Value(t) == draw.Value(t)
    }

    /** `adjust`: the sum is refused outside 0..100; leaving the i16 range implies that. */
    function Adjust(t: NatureTrait, delta: I16): (r: Option<TentacleNature>)
      ensures r.Some? <==> Valid() && 0 <= Value(t) + delta <= MAX_SLIDER
      ensures r.Some? ==>
        && r.value.Valid()
        && r.value.natureId == natureId
        && r.value.Value(t) == Value(t) + delta
        && (forall u: NatureTrait :: u != t ==> r.value.Value(u) == Value(u))
        && (r.value == this <==> delta == 0)
    {
      if Valid() && 0 <= Value(t) + delta <= MAX_SLIDER then
        var n := SetValue(t, Value(t) + delta);
        assert n.Value(t) == Value(t) + delta;
        assert forall u: NatureTrait :: u != t ==> n.Value(u) == Value(u);
        assert delta == 0 ==> n == this;
        Some(n)
      else None
    }

    /** `reroll`: a fresh draw in the same lineage position; a draw may still be refused. */
    function Reroll(draw: Draw): (r: Option<TentacleNature>)
      ensures r.Some? <==>
              && Valid() && IsNatureId(draw.natureId) && parentNatureId != Some(draw.natureId)
              && forall t: NatureTrait :: draw.Value(t) <= MAX_SLIDER
      ensures r.Some? ==> r.value.Valid() && SameLineage(this, r.value) && r.value.IsDrawn(draw)
    {
      if !Valid() then None
      else
        var n := TentacleNature(NATURE_SCHEMA_VERSION, draw.natureId, generation, parentNatureId,
                                draw.engagement, draw.growth, draw.wealth, draw.influence,
                                draw.cooperation, draw.stability, draw.transparency, draw.sacredBan);
        assert forall t: NatureTrait :: n.Value(t) == draw.Value(t);
        if n.Valid() then Some(n) else None
    }
  }

  /** What the operating system's randomness supplies for one candidate. */
  datatype Draw = Draw(
    natureId: string,
    engagement: U8,
    growth: U8,
    wealth: U8,
    influence: U8,
    cooperation: U8,
    stability: U8,
    transparency: U8,
    sacredBan: SacredBan)
  {
    function Value(t: NatureTrait): U8 {
      match t
      case Engagement => engagement
      case Growth => growth
      case Wealth => wealth
      case Influence => influence
      case Cooperation => cooperation
      case Stability => stability
      case Transparency => transparency
    }
  }

  predicate IsNatureId(id: string) {
    |id| == NATURE_ID_HEX_BYTES && All(id, IsLowerHex)
  }

  /** One slider stands elsewhere; nothing else changed. */
  ghost predicate OnlySlider(a: TentacleNature, t: NatureTrait, value: int, b: TentacleNature) {
    && a.natureId == b.natureId && a.sacredBan == b.sacredBan && SameLineage(a, b)
    && b.Value(t) == value && forall u: NatureTrait :: u != t ==> b.Value(u) == a.Value(u)
  }

  /** A Nature is its identifier, lineage, sliders and ban. */
  lemma SameValues(a: TentacleNature, b: TentacleNature)
    requires a.natureId == b.natureId && a.sacredBan == b.sacredBan && SameLineage(a, b)
    requires forall t: NatureTrait :: a.Value(t) == b.Value(t)
    ensures a == b
  {
    assert a.Value(Engagement) == a.engagement && b.Value(Engagement) == b.engagement;
    assert a.Value(Growth) == a.growth && b.Value(Growth) == b.growth;
    assert a.Value(Wealth) == a.wealth && b.Value(Wealth) == b.wealth;
    assert a.Value(Influence) == a.influence && b.Value(Influence) == b.influence;
    assert a.Value(Cooperation) == a.cooperation && b.Value(Cooperation) == b.cooperation;
    assert a.Value(Stability) == a.stability && b.Value(Stability) == b.stability;
    assert a.Value(Transparency) == a.transparency && b.Value(Transparency) == b.transparency;
  }

  /** Adjusting is moving one slider within its range. */
  lemma AdjustMovesOneSlider(a: TentacleNature, t: NatureTrait, delta: I16, b: TentacleNature)
    requires a.Valid()
    ensures a.Adjust(t, delta) == Some(b)
            <==> 0 <= a.Value(t) + delta <= MAX_SLIDER && OnlySlider(a, t, a.Value(t) + delta, b)
  {
    if a.Adjust(t, delta).Some? {
      var c := a.Adjust(t, delta).value;
      if OnlySlider(a, t, a.Value(t) + delta, b) {
        forall u: NatureTrait
          ensures b.Value(u) == c.Value(u)
        {
        }
        SameValues(b, c);
      }
    }
  }

  predicate SameLineage(a: TentacleNature, b: TentacleNature) {
    && a.schemaVersion == b.schemaVersion
    && a.generation == b.generation
    && a.parentNatureId == b.parentNatureId
  }
}
