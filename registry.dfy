/** The Thunderbird label table and the flag sets the rest of the core is defined by. */
module Registry {

  /** An IMAP flag token as the server reports it. */
  type Flag = string

  /** The symbolic Thunderbird labels, in the order the label table declares them. */
  datatype Label = Star | Important | Work | Personal | Todo | Later

  /** Token the server stores for each label. */
  function FlagFor(l: Label): Flag {
    match l
    case Star => "\\Flagged"
    case Important => "$label1"
    case Work => "$label2"
    case Personal => "$label3"
    case Todo => "$label4"
    case Later => "$label5"
  }

  /** The label table, in declaration order (a Python dict keeps insertion order). */
  const AllLabels: seq<Label> := [Star, Important, Work, Personal, Todo, Later]

  /** Flags that make a message a task: important, work and todo, in this order. */
  const ImportantFlags: seq<Flag> := [FlagFor(Important), FlagFor(Work), FlagFor(Todo)]

  /** The same flags as a set. */
  const TriggerSet: set<Flag> := {FlagFor(Important), FlagFor(Work), FlagFor(Todo)}

  /** A flag set qualifies for processing when it shares a flag with the trigger set. */
  predicate Triggers(flags: set<Flag>) {
    flags * TriggerSet != {}
  }

  /** A processed message is relabelled personal (green) when it was important or todo. */
  predicate EarnsPersonal(flags: set<Flag>) {
    FlagFor(Important) in flags || FlagFor(Todo) in flags
  }

  /** The labels a processed message loses. */
  predicate IsRemovedLabel(l: Label) {
    l in [Important, Work, Todo]
  }

  /** Tokens of the labels in `labels` that a processed message loses, in table order. */
  function RemovedTokens(labels: seq<Label>): (r: seq<Flag>)
    ensures |r| <= |labels|
    ensures forall f :: f in r <==> exists l :: l in labels && IsRemovedLabel(l) && FlagFor(l) == f
  {
    if labels == [] then []
    else
      (if IsRemovedLabel(labels[0]) then [FlagFor(labels[0])] else []) + RemovedTokens(labels[1..])
  }

  /** `flags_to_remove`: the label table filtered by name, which is exactly the trigger list. */
  function FlagsToRemove(): (r: seq<Flag>)
    ensures r == ImportantFlags
  {
    RemovedTokens(AllLabels)
  }

  /** Every label has its own token, so the table can be read in both directions. */
  lemma FlagForInjective(a: Label, b: Label)
    ensures FlagFor(a) == FlagFor(b) ==> a == b
  {
  }

  /** A message that only carries star, personal or later is never a trigger. */
  lemma PassiveLabelsDoNotTrigger(flags: set<Flag>)
    requires flags <= {FlagFor(Star), FlagFor(Personal), FlagFor(Later)}
    ensures !Triggers(flags)
  {
    assert flags * TriggerSet == {} by {
      forall f | f in flags ensures f !in TriggerSet {
        assert f == FlagFor(Star) || f == FlagFor(Personal) || f == FlagFor(Later);
      }
    }
  }
}
