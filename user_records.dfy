/**
 * The user record of the profile page and the field-precedence rules the
 * page applies when it reconciles a cached record with a server reply.
 *
 * A record is the parsed JSON object, field name to value. The page reads
 * fields through JavaScript's `||`, so an absent field and an empty string
 * are both "missing" there; object spread (`{...a, ...b}`) is map union,
 * the right operand winning.
 */
module UserRecords {

  type Record = map<string, string>

  datatype Option<T> = None | Some(value: T)

  const Tier := "tier"
  const FreeTier := "Free"

  /** The field is there and is truthy. */
  predicate Present(r: Record, k: string) {
    k in r && r[k] != ""
  }

  /** `r.k || ''`: the field's value when it is truthy, otherwise the empty string. */
  function Get(r: Record, k: string): (v: string)
    ensures v != "" <==> Present(r, k)
    ensures Present(r, k) ==> v == r[k]
  {
    if k in r then r[k] else ""
  }

  /** `r.k` when it is serialised: an absent field is left out. */
  function Lookup(r: Record, k: string): (v: Option<string>)
    ensures v.Some? <==> k in r
    ensures v.Some? ==> v.value == r[k]
  {
    if k in r then Some(r[k]) else None
  }

  /** JavaScript `a || b` on strings: the empty string is falsy. */
  function Or(a: string, b: string): (s: string)
    ensures s == a || s == b
    ensures s != "" <==> a != "" || b != ""
    ensures a != "" ==> s == a
  {
    if a != "" then a else b
  }

  /** `{...user}` where `user` may be `null`: spreading `null` gives `{}`. */
  function Base(user: Option<Record>): (r: Record)
    ensures user.Some? ==> r == user.value
    ensures user.None? ==> r == map[]
  {
    match user
    case None => map[]
    case Some(u) => u
  }

  /** The record a successful load keeps (`{...cached, ...server, tier: …}`); it always has a tier. */
  function MergeOnLoad(cached: Record, server: Record): (merged: Record)
    ensures Present(merged, Tier)
  {
    (cached + server)[Tier := Or(Get(server, Tier), Or(Get(cached, Tier), FreeTier))]
  }

  /**
   * The merged record is the cached record overlaid with every field of
   * the server's reply, except that the tier is the server's if truthy,
   * else the cached one if truthy, else "Free"; so it always has a tier.
   */
  lemma MergeOnLoadFields(cached: Record, server: Record)
    ensures MergeOnLoad(cached, server).Keys == cached.Keys + server.Keys + {Tier}
    ensures forall k :: k in server && k != Tier ==> MergeOnLoad(cached, server)[k] == server[k]
    ensures forall k :: k in cached && k !in server && k != Tier ==> MergeOnLoad(cached, server)[k] == cached[k]
    ensures MergeOnLoad(cached, server)[Tier] == if Present(server, Tier) then server[Tier]
                                                 else if Present(cached, Tier) then cached[Tier]
                                                 else FreeTier
    ensures Present(MergeOnLoad(cached, server), Tier)
  {
  }

  /** The record a refresh keeps (`{...user, tier: …}`); it always has a tier. */
  function RefreshTier(user: Record, fetched: Record): (u: Record)
    ensures Present(u, Tier)
  {
    user[Tier := Or(Get(fetched, Tier), Or(Get(user, Tier), FreeTier))]
  }

  /**
   * A refresh keeps every field as it was except the tier, which is the
   * fetched tier if truthy, else the old one if truthy, else "Free".
   */
  lemma RefreshTierFields(user: Record, fetched: Record)
    ensures RefreshTier(user, fetched).Keys == user.Keys + {Tier}
    ensures forall k :: k in user && k != Tier ==> RefreshTier(user, fetched)[k] == user[k]
    ensures RefreshTier(user, fetched)[Tier] == if Present(fetched, Tier) then fetched[Tier]
                                                else if Present(user, Tier) then user[Tier]
                                                else FreeTier
  {
  }

  /** The record a successful name update keeps (`{...user, name: …, email: …}`). */
  function NameUpdated(user: Record, updated: Record, typed: string): (u: Record)
    ensures "name" in u && "email" in u
  {
    user["name" := Or(Get(updated, "name"), typed)]["email" := Or(Get(updated, "email"), Or(Get(user, "email"), ""))]
  }

  /**
   * After a name update the name is the returned name if truthy, else the
   * name the user typed; the email is the returned email if truthy, else
   * the old email, else ""; every other field is as it was.
   */
  lemma NameUpdatedFields(user: Record, updated: Record, typed: string)
    ensures NameUpdated(user, updated, typed).Keys == user.Keys + {"name", "email"}
    ensures forall k :: k in user && k != "name" && k != "email" ==> NameUpdated(user, updated, typed)[k] == user[k]
    ensures NameUpdated(user, updated, typed)["name"] == if Present(updated, "name") then updated["name"] else typed
    ensures NameUpdated(user, updated, typed)["email"] == if Present(updated, "email") then updated["email"]
                                                          else if "email" in user then user["email"]
                                                          else ""
  {
  }

  /** The record a successful cancellation keeps (`{...base, tier: "Free"}`). */
  function Cancelled(base: Record): (u: Record)
    ensures Tier in u && u[Tier] == FreeTier
  {
    base[Tier := FreeTier]
  }

  /** A cancellation keeps every field of the base except the tier. */
  lemma CancelledFields(base: Record)
    ensures Cancelled(base).Keys == base.Keys + {Tier}
    ensures forall k :: k in base && k != Tier ==> Cancelled(base)[k] == base[k]
  {
  }

  /** Only the tier of a reply, as a record of its own. */
  function TierOnly(reply: Record): (r: Record)
    ensures r.Keys <= {Tier}
    ensures Tier in r <==> Tier in reply
    ensures Tier in r ==> r[Tier] == reply[Tier]
  {
    if Tier in reply then map[Tier := reply[Tier]] else map[]
  }

  /**
   * One precedence rule for the tier: a refresh is the load merge applied
   * to the tier of the fetched reply alone.
   */
  lemma RefreshIsLoadMerge(user: Record, fetched: Record)
    ensures RefreshTier(user, fetched) == MergeOnLoad(user, TierOnly(fetched))
  {
    var r, m := RefreshTier(user, fetched), MergeOnLoad(user, TierOnly(fetched));
    assert r.Keys == m.Keys;
    forall k | k in r ensures r[k] == m[k] {
      if k != Tier {
        assert k !in TierOnly(fetched);
      }
    }
  }

  /** Merging the same server reply a second time changes nothing. */
  lemma MergeOnLoadIdempotent(cached: Record, server: Record)
    ensures MergeOnLoad(MergeOnLoad(cached, server), server) == MergeOnLoad(cached, server)
  {
    var once := MergeOnLoad(cached, server);
    var twice := MergeOnLoad(once, server);
    assert twice.Keys == once.Keys;
    forall k | k in once ensures twice[k] == once[k] {
    }
  }

  /** A refresh with the same reply a second time changes nothing. */
  lemma RefreshTierIdempotent(user: Record, fetched: Record)
    ensures RefreshTier(RefreshTier(user, fetched), fetched) == RefreshTier(user, fetched)
  {
    var once := RefreshTier(user, fetched);
    var twice := RefreshTier(once, fetched);
    assert twice.Keys == once.Keys;
    forall k | k in once ensures twice[k] == once[k] {
    }
  }

  /** Cancelling forgets the tier the record had before, whatever it was. */
  lemma CancelledForgetsTier(base: Record, tier: string)
    ensures Cancelled(base[Tier := tier]) == Cancelled(base)
  {
    var a, b := Cancelled(base[Tier := tier]), Cancelled(base);
    assert a.Keys == b.Keys;
    forall k | k in a ensures a[k] == b[k] {
    }
  }
}
