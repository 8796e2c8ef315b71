/**
 * A game entity as the combat core sees it: a name and the components it
 * may carry.  A missing component is `null`; querying one that is absent
 * is the caller's responsibility, exactly as with the component map.
 */
module Entities {
  import opened Stats
  import opened Positions

  class Entity {
    const name: string
    /** The stats component, when attached. */
    const stats: StatsComponent?
    /** The position component, when attached; the battlefield may attach one. */
    var position: PositionComponent?

    constructor(name: string, stats: StatsComponent?, position: PositionComponent?)
      ensures this.name == name && this.stats == stats && this.position == position
    {
      this.name := name;
      this.stats := stats;
      this.position := position;
    }

    predicate HasStats()
      reads this
    {
      stats != null
    }

    /** Has stats and health above zero. */
    predicate IsAlive()
      reads this, stats
    {
      stats != null && !stats.IsDead()
    }
  }

  /** The stats component of an entity, as a frame: empty when there is none. */
  function StatsOf(e: Entity?): set<StatsComponent>
  {
    if e != null && e.stats != null then {e.stats} else {}
  }
}
