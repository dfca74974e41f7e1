/**
 * The Astra Monitor panel header: the widget that sits in the top bar,
 * holds its indicators in an inner box, sizes that box from its parent's
 * height and a user override, and releases its settings subscriptions when
 * it is destroyed.
 */
module PanelHeader {
  import opened Wrappers
  import opened SettingsStore
  import opened Connections
  import opened Settings

  /** The settings signal a header subscribes to when it is built. */
  const HeightOverrideSignal: string := "changed::headers-height-override"

  /** The last parent height and override a style was computed from. */
  datatype CachedHeight = CachedHeight(fill: int, override: int)

  /** A header starts with a cache no real parent height and override can match. */
  const InitialCache := CachedHeight(-1, -1)

  /** The inline style the box is given: `height:<px>px;`. */
  datatype Style = Height(px: int)

  /** What the box reports about its parent: none, or a parent whose height may be unset. */
  datatype BoxParent = NoParent | Parent(height: Option<int>)

  /** The stage's theme context; `getScaleFactor` is `None` when it has no such method. */
  datatype ThemeContext = ThemeContext(getScaleFactor: Option<int>)

  /** The `scaleFactor` getter: the theme context's factor, or 1 when it cannot report one. */
  function ScaleFactor(ctx: ThemeContext): int
  {
    ctx.getScaleFactor.GetOr(1)
  }

  /** An override counts only when it lies strictly between 15 and 80 pixels. */
  predicate OverrideApplies(override: int)
  {
    15 < override < 80
  }

  function Min(a: int, b: int): int
  {
    if a <= b then a else b
  }

  /**
   * The height the box is given for a parent height and an override: the
   * override when it applies, otherwise the parent height less 4, capped at
   * 32, times the scale factor.
   */
  function StyledHeight(fill: int, override: int, scale: int): (px: int)
    ensures OverrideApplies(override) ==> px == override
    ensures !OverrideApplies(override) && fill - 4 > 32 ==> px == 32 * scale
    ensures !OverrideApplies(override) && fill - 4 <= 32 ==> px == (fill - 4) * scale
  {
    var scaled := Min(32, fill - 4) * scale;
    if OverrideApplies(override) then override else scaled
  }

  /** The part of a header `setStyle` reads and writes: its cache and its box's style. */
  datatype StyleState = StyleState(cache: CachedHeight, style: Option<Style>)

  /** The parent height `setStyle` works from: an unset height reads as 0. */
  function FillHeight(parent: BoxParent): int
    requires parent.Parent?
  {
    parent.height.GetOr(0)
  }

  /**
   * What one `setStyle` call does: nothing without a parent or an
   * allocation, nothing when the parent height and override match the
   * cache, and otherwise caches them and restyles the box.
   */
  function SetStyleStep(s: StyleState, parent: BoxParent, hasAllocation: bool, override: int, scale: int): (s': StyleState)
    ensures parent.NoParent? || !hasAllocation ==> s' == s
    ensures s' == s || s'.cache == CachedHeight(FillHeight(parent), override)
    ensures s' != s ==> s'.style == Some(Height(StyledHeight(FillHeight(parent), override, scale)))
  {
    if parent.NoParent? || !hasAllocation then s
    else
      var fill := FillHeight(parent);
      if s.cache == CachedHeight(fill, override) then s
      else StyleState(CachedHeight(fill, override), Some(Height(StyledHeight(fill, override, scale))))
  }

  /** A second call with the same inputs changes nothing: `setStyle` is idempotent. */
  lemma SetStyleIdempotent(s: StyleState, parent: BoxParent, hasAllocation: bool, override: int, scale: int)
    ensures var once := SetStyleStep(s, parent, hasAllocation, override, scale);
            SetStyleStep(once, parent, hasAllocation, override, scale) == once
  {
  }

  /**
   * With a parent and an allocation, the cache afterwards holds the parent
   * height before the 4-pixel reduction, and the override.
   */
  lemma SetStyleCachesUnreducedHeight(s: StyleState, h: Option<int>, override: int, scale: int)
    ensures SetStyleStep(s, Parent(h), true, override, scale).cache == CachedHeight(h.GetOr(0), override)
  {
  }

  /**
   * From the initial cache, the first call with a parent of non-negative
   * height and an allocation always styles the box.
   */
  lemma FirstCallStyles(style: Option<Style>, h: Option<int>, override: int, scale: int)
    requires h.GetOr(0) >= 0
    ensures SetStyleStep(StyleState(InitialCache, style), Parent(h), true, override, scale).style
         == Some(Height(StyledHeight(h.GetOr(0), override, scale)))
  {
  }

  /**
   * A change of override alone restyles the box, and an override that
   * applies becomes the height whatever the parent height.
   */
  lemma OverrideChangeRestyles(s: StyleState, h: Option<int>, override: int, scale: int)
    requires s.cache.override != override
    requires OverrideApplies(override)
    ensures SetStyleStep(s, Parent(h), true, override, scale).style == Some(Height(override))
  {
  }

  /** Without `get_scale_factor` the height is the capped parent height itself. */
  lemma FallbackScaleIsOne(fill: int, override: int)
    requires !OverrideApplies(override)
    ensures StyledHeight(fill, override, ScaleFactor(ThemeContext(None))) == Min(32, fill - 4)
  {
  }

  /** An actor handed to the header's child-management methods. */
  datatype Actor = Actor(handle: nat)

  /** A child-management call, as the receiving container sees it. */
  datatype ChildCall =
    | InsertAbove(child: Actor, sibling: Option<Actor>)
    | InsertAtIndex(child: Actor, index: int)
    | InsertBelow(child: Actor, sibling: Option<Actor>)
    | RemoveChild(child: Actor)

  /**
   * One header. `owner` is its identity in the settings facade's tables;
   * `boxCalls` and `widgetCalls` are the child-management calls the inner
   * box and the header's own container have received, in order.
   */
  class Header {
    const owner: Owner
    var hasBox: bool
    var cachedHeight: CachedHeight
    var boxStyle: Option<Style>
    var boxCalls: seq<ChildCall>
    var widgetCalls: seq<ChildCall>

    /** The start of the constructor: the container is built, the cache set, the box not yet made. */
    constructor (owner: Owner)
      ensures this.owner == owner && !hasBox
      ensures cachedHeight == InitialCache && boxStyle == None
      ensures boxCalls == [] && widgetCalls == []
    {
      this.owner := owner;
      hasBox := false;
      cachedHeight := InitialCache;
      boxStyle := None;
      boxCalls := [];
      widgetCalls := [];
    }

    /** The constructor builds the inner box and adds it to the header. */
    method AddBox()
      modifies this`hasBox
      ensures hasBox
    {
      hasBox := true;
    }

    /**
     * The whole constructor: builds the header and its box, then subscribes
     * it to the height-override setting, which throws without a store.
     */
    static method Create(config: Config, owner: Owner) returns (r: Result<Header, ConfigError>)
      requires config.Valid()
      modifies config
      ensures config.Valid()
      ensures r.Err? <==> old(config.store).None?
      ensures r.Err? ==> config.store == old(config.store) && config.connectMap == old(config.connectMap) && config.calls == old(config.calls)
      ensures r.Ok? ==>
        && fresh(r.value) && r.value.owner == owner && r.value.hasBox
        && r.value.cachedHeight == InitialCache && r.value.boxStyle == None
      ensures r.Ok? ==>
        var id := old(config.store).value.nextId;
        && config.store == Some(old(config.store).value.(nextId := id + 1))
        && config.calls == old(config.calls) + [ConnectCall(HeightOverrideSignal, id)]
        && config.connectMap == old(config.connectMap)[owner :=
             (if owner in old(config.connectMap) then old(config.connectMap)[owner] else []) + [Connection(id, HeightOverrideSignal)]]
      ensures config.bindMap == old(config.bindMap)
    {
      var header := new Header(owner);
      header.AddBox();
      var id := config.Connect(owner, HeightOverrideSignal);
      if id.Err? {
        return Err(id.error);
      }
      return Ok(header);
    }

    /** The style state of this header, as `SetStyleStep` sees it. */
    function State(): StyleState
      reads this
    {
      StyleState(cachedHeight, boxStyle)
    }

    /**
     * `setStyle()`: `override` is what `Config.get_int` returns for the
     * height-override key and `ctx` the stage's theme context.
     */
    method SetStyle(parent: BoxParent, hasAllocation: bool, override: int, ctx: ThemeContext)
      modifies this`cachedHeight, this`boxStyle
      ensures State() == SetStyleStep(old(State()), parent, hasAllocation, override, ScaleFactor(ctx))
    {
      if parent.NoParent? {
        return;
      }
      if !hasAllocation {
        return;
      }
      var fillHeight := parent.height.GetOr(0);
      if cachedHeight.fill == fillHeight && cachedHeight.override == override {
        return;
      }
      cachedHeight := CachedHeight(fillHeight, override);
      fillHeight := fillHeight - 4;
      var scaledFillHeight := Min(32, fillHeight) * ScaleFactor(ctx);
      var style := Height(scaledFillHeight);
      if override > 15 && override < 80 {
        style := Height(override);
      }
      boxStyle := Some(style);
    }

    /** Sends a child-management call to the box when there is one, else to the header's own container. */
    method Route(call: ChildCall)
      modifies this`boxCalls, this`widgetCalls
      ensures hasBox ==> boxCalls == old(boxCalls) + [call] && widgetCalls == old(widgetCalls)
      ensures !hasBox ==> widgetCalls == old(widgetCalls) + [call] && boxCalls == old(boxCalls)
    {
      if hasBox {
        boxCalls := boxCalls + [call];
      } else {
        widgetCalls := widgetCalls + [call];
      }
    }

    /** `insert_child_above(child, sibling)`. */
    method InsertChildAbove(child: Actor, sibling: Option<Actor>)
      modifies this`boxCalls, this`widgetCalls
      ensures hasBox ==> boxCalls == old(boxCalls) + [InsertAbove(child, sibling)] && widgetCalls == old(widgetCalls)
      ensures !hasBox ==> widgetCalls == old(widgetCalls) + [InsertAbove(child, sibling)] && boxCalls == old(boxCalls)
    {
      Route(InsertAbove(child, sibling));
    }

    /** `insert_child_at_index(child, index)`. */
    method InsertChildAtIndex(child: Actor, index: int)
      modifies this`boxCalls, this`widgetCalls
      ensures hasBox ==> boxCalls == old(boxCalls) + [InsertAtIndex(child, index)] && widgetCalls == old(widgetCalls)
      ensures !hasBox ==> widgetCalls == old(widgetCalls) + [InsertAtIndex(child, index)] && boxCalls == old(boxCalls)
    {
      Route(InsertAtIndex(child, index));
    }

    /** `insert_child_below(child, sibling)`. */
    method InsertChildBelow(child: Actor, sibling: Option<Actor>)
      modifies this`boxCalls, this`widgetCalls
      ensures hasBox ==> boxCalls == old(boxCalls) + [InsertBelow(child, sibling)] && widgetCalls == old(widgetCalls)
      ensures !hasBox ==> widgetCalls == old(widgetCalls) + [InsertBelow(child, sibling)] && boxCalls == old(boxCalls)
    {
      Route(InsertBelow(child, sibling));
    }

    /** `remove_child(child)`. */
    method RemoveChildCall(child: Actor)
      modifies this`boxCalls, this`widgetCalls
      ensures hasBox ==> boxCalls == old(boxCalls) + [RemoveChild(child)] && widgetCalls == old(widgetCalls)
      ensures !hasBox ==> widgetCalls == old(widgetCalls) + [RemoveChild(child)] && boxCalls == old(boxCalls)
    {
      Route(RemoveChild(child));
    }

    /** `destroy()`: releases everything the header holds in the settings facade. */
    method Destroy(config: Config) returns (r: Outcome<ConfigError>)
      requires config.Valid()
      modifies config
      ensures config.Valid()
      ensures config.store == old(config.store)
      ensures r == (if old(config.store).None? then Fail(SettingsNotValid) else Pass)
      ensures r.Fail? ==> config.bindMap == old(config.bindMap) && config.connectMap == old(config.connectMap) && config.calls == old(config.calls)
      ensures r.Pass? ==> owner !in config.bindMap && owner !in config.connectMap
      ensures r.Pass? ==> config.bindMap == old(config.bindMap) - {owner} && config.connectMap == old(config.connectMap) - {owner}
      ensures r.Pass? ==> config.calls == old(config.calls) + ReleaseCalls(owner, old(config.bindMap), old(config.connectMap))
    {
      r := config.Clear(owner);
    }
  }

  /**
   * A header built and destroyed on an attached store for a fresh owner
   * subscribes once and releases exactly that subscription, leaving both
   * tables as they were.
   */
  method HeaderLifecycle(config: Config, owner: Owner)
    requires config.Valid() && config.store.Some?
    requires owner !in config.bindMap && owner !in config.connectMap
    modifies config
    ensures config.Valid()
    ensures config.bindMap == old(config.bindMap) && config.connectMap == old(config.connectMap)
    ensures config.store == Some(old(config.store).value.(nextId := old(config.store).value.nextId + 1))
    ensures var id := old(config.store).value.nextId;
            config.calls == old(config.calls) + [ConnectCall(HeightOverrideSignal, id), DisconnectCall(id)]
  {
    ghost var connectMap0, calls0 := config.connectMap, config.calls;
    var created := Header.Create(config, owner);
    var header := created.value;
    ghost var id := old(config.store).value.nextId;
    ghost var subscription := Connection(id, HeightOverrideSignal);
    assert created.Ok? && [] + [subscription] == [subscription];
    assert config.connectMap == connectMap0[owner := [subscription]];
    ghost var connectMap1, calls1 := config.connectMap, config.calls;
    var r := header.Destroy(config);
    assert ReleaseCalls(owner, config.bindMap, connectMap1) == [DisconnectCall(id)] by {
      assert connectMap1[owner] == [subscription];
    }
    UpdateThenRemove(connectMap0, owner, [subscription]);
  }

  /** Adding an absent key and then removing it gives back the map. */
  lemma UpdateThenRemove<K, V>(m: map<K, V>, k: K, v: V)
    requires k !in m
    ensures m[k := v] - {k} == m
  {
  }
}
