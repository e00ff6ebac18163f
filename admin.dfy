/**
 * The Admin cog: the owner's `gift` and `team` commands, which change the
 * premium-user table and the team list, and `about`, which only team
 * members may see. The clock is a parameter: `now` is the current time in
 * seconds, and an end date is kept as a second count instead of an ISO string.
 */
module Admin {
  import opened Text

  const OwnerId: int := 950609706760691752
  const NoPermission: string := "You do not have permission to use this command."
  const InvalidTier: string := "Invalid tier. Choose from 'pro', 'team', or 'enterprise'."

  /** The tiers `gift` accepts. */
  const Tiers: seq<string> := ["pro", "team", "enterprise"]

  /** `timedelta(days=30)`, in seconds. */
  const GiftDuration: int := 30 * 24 * 60 * 60

  /** A row of `premium_users`: `{"tier": ..., "end_date": ...}`. */
  datatype Premium = Premium(tier: string, endDate: int)

  function GiftedMessage(tier: string, userId: int): string
  {
    "Gifted " + tier + " tier to user " + IntToString(userId) + " for a month."
  }

  function AddedMessage(userId: int): string
  {
    "Added user " + IntToString(userId) + " to the team."
  }

  /** `<@id>`: the mention of one team member. */
  function Mention(id: int): string
  {
    "<@" + IntToString(id) + ">"
  }

  /** The mentions of the team, in list order. */
  function Mentions(ids: seq<int>): (lines: seq<string>)
    ensures |lines| == |ids|
  {
    seq(|ids|, k requires 0 <= k < |ids| => Mention(ids[k]))
  }

  /** The embed of `about`: title, description, fields (name, value) and footer text. */
  datatype AboutReply =
    | Denied(message: string)
    | Embed(title: string, description: string, fields: seq<(string, string)>, footer: string)

  /** The embed shown to a team member. */
  function AboutEmbed(team: seq<int>): AboutReply
  {
    Embed("About IndieGO Bot", "The ultimate Discord bot for developer communities!",
      [("Creator", "Drago (drago.exe)"),
       ("Support Server", "[Join Support Server](https://discord.gg/9bPsjgnJ5v)"),
       ("Website", "https://your-private-website.com"),
       ("Team Members", Join(Mentions(team), "\n"))],
      "IndieGO Bot")
  }

  /** No mention holds a line break. */
  lemma MentionNoBreak(id: int)
    ensures !Contains(Mention(id), "\n")
  {
    var m := Mention(id);
    var digits := NatToString(if id < 0 then -id else id);
    assert forall i :: 0 <= i < |digits| ==> IsDigitChar(digits[i]);
    assert forall i :: 0 <= i < |m| ==> m[i] != '\n';
    CharAbsent(m, '\n');
  }

  /**
   * The "Team Members" field of `about` lists one mention per entry of the
   * team list, in order and duplicates included: split at line breaks it
   * gives back the mentions.
   */
  lemma TeamFieldReadsBack(team: seq<int>)
    requires |team| >= 1
    ensures AboutEmbed(team).fields[3].0 == "Team Members"
    ensures Split(AboutEmbed(team).fields[3].1, "\n") == Mentions(team)
    ensures forall k :: 0 <= k < |team| ==> Mentions(team)[k] == Mention(team[k])
  {
    var lines := Mentions(team);
    forall k | 0 <= k < |lines|
      ensures !Contains(lines[k], "\n")
    {
      MentionNoBreak(team[k]);
    }
    SplitJoin(lines, "\n");
  }

  class AdminCog {
    var premiumUsers: map<int, Premium>
    var teamMembers: seq<int>

    /** The owner is on the team and every premium row has a tier `gift` accepts. */
    predicate Valid()
      reads this
    {
      OwnerId in teamMembers && forall u :: u in premiumUsers ==> premiumUsers[u].tier in Tiers
    }

    /** No premium users; the owner is the only team member. */
    constructor ()
      ensures premiumUsers == map[] && teamMembers == [OwnerId]
      ensures Valid()
    {
      premiumUsers := map[];
      teamMembers := [OwnerId];
    }

    /**
     * `gift`: anyone but the owner is refused, then a tier outside the
     * three is refused, and neither refusal changes anything; otherwise
     * the user's row is set, or overwritten, to the tier and an end date
     * thirty days from now.
     */
    method Gift(callerId: int, tier: string, userId: int, now: int) returns (reply: string)
      requires Valid()
      modifies this
      ensures Valid()
      ensures callerId != OwnerId ==> reply == NoPermission && premiumUsers == old(premiumUsers)
      ensures callerId == OwnerId && tier !in Tiers ==> reply == InvalidTier && premiumUsers == old(premiumUsers)
      ensures callerId == OwnerId && tier in Tiers ==>
        reply == GiftedMessage(tier, userId)
        && premiumUsers == old(premiumUsers)[userId := Premium(tier, now + GiftDuration)]
      ensures teamMembers == old(teamMembers)
    {
      if callerId != OwnerId {
        return NoPermission;
      }
      if tier !in Tiers {
        return InvalidTier;
      }
      premiumUsers := premiumUsers[userId := Premium(tier, now + GiftDuration)];
      reply := GiftedMessage(tier, userId);
    }

    /** `team`: owner only; appends the id, even one already on the team. */
    method Team(callerId: int, userId: int) returns (reply: string)
      requires Valid()
      modifies this
      ensures Valid()
      ensures callerId != OwnerId ==> reply == NoPermission && teamMembers == old(teamMembers)
      ensures callerId == OwnerId ==> reply == AddedMessage(userId) && teamMembers == old(teamMembers) + [userId]
      ensures premiumUsers == old(premiumUsers)
    {
      if callerId != OwnerId {
        return NoPermission;
      }
      teamMembers := teamMembers + [userId];
      reply := AddedMessage(userId);
    }

    /** `about`: refused to anyone not on the team list; the owner is always admitted. */
    method About(callerId: int) returns (reply: AboutReply)
      requires Valid()
      ensures callerId !in teamMembers <==> reply == Denied(NoPermission)
      ensures callerId in teamMembers ==> reply == AboutEmbed(teamMembers)
      ensures callerId == OwnerId ==> reply.Embed?
    {
      if callerId !in teamMembers {
        return Denied(NoPermission);
      }
      reply := AboutEmbed(teamMembers);
    }
  }
}
