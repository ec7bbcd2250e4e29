/** `FollowerListButton`: the "Followers" button that opens the follower list, and its
    `pluralize` helper. The label is the constant `ButtonText`, whatever the count. */
module FollowerListButton {
  const ButtonText: string := "Followers"

  /** `pluralize(count, singular)` */
  function Pluralize(count: int, singular: string): (r: string)
    ensures count == 1 ==> r == singular
    ensures count != 1 ==> r == singular + "s"
    ensures singular <= r && |r| <= |singular| + 1
  {
    if count == 1 then singular else singular + "s"
  }

  /** Zero counts as plural. */
  lemma PluralizeZero(singular: string)
    ensures Pluralize(0, singular) == singular + "s"
  {
  }
}
