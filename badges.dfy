/** The unread badge shown next to a thread in the list. */
module Badges {
  import opened Types

  /** The three badge colours of the theme: mention of me, mention of a
      group, plain unread. No badge is `None`. */
  datatype Badge = MentionMe | MentionGroup | Unread

  /** Precedence of the badges: a higher rank wins. */
  function Rank(b: Badge): nat {
    match b
    case MentionMe => 3
    case MentionGroup => 2
    case Unread => 1
  }

  /** The subscription snapshot lists thread `id` in the list behind badge `b`. */
  predicate Listed(sub: SubState, id: Id, b: Badge) {
    sub.Loaded? &&
    match b
    case MentionMe => id in sub.record.tunreadUser
    case MentionGroup => id in sub.record.tunreadGroup
    case Unread => id in sub.record.tunread
  }

  /** First match wins over `tunreadUser`, then `tunreadGroup`, then
      `tunread`; a falsy or placeholder subscription has no lists. The result
      is exactly the highest-ranked badge whose list holds the id, and no
      badge when no list holds it. */
  function BadgeColor(sub: SubState, id: Id): (r: Option<Badge>)
    ensures r.None? <==> forall b :: !Listed(sub, id, b)
    ensures r.Some? ==> Listed(sub, id, r.value)
    ensures r.Some? ==> forall b :: Listed(sub, id, b) ==> Rank(b) <= Rank(r.value)
  {
    if !sub.Loaded? then None
    else if id in sub.record.tunreadUser then assert Listed(sub, id, MentionMe); Some(MentionMe)
    else if id in sub.record.tunreadGroup then assert Listed(sub, id, MentionGroup); Some(MentionGroup)
    else if id in sub.record.tunread then assert Listed(sub, id, Unread); Some(Unread)
    else None
  }
}
