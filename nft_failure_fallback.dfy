/** `NftFailureFallback`: what a token tile shows when its media failed to load — a label, and
    a refresh button while no refresh is under way. */
module NftFailureFallback {
  import opened Common

  datatype Size = Tiny | Medium

  /** The `size` prop, `'medium'` when it is not given. */
  function SizeOrDefault(size: Option<Size>): (r: Size)
    ensures size.None? ==> r == Medium
    ensures size.Some? ==> r == size.value
  {
    GetOr(size, Medium)
  }

  /** `spaceY`: the vertical gap between the label and the button. */
  function Gap(size: Size): (r: nat)
    ensures size == Tiny <==> r == 0
    ensures size == Medium <==> r == 16
  {
    match size
    case Tiny => 0
    case Medium => 16
  }

  const LoadingLabel: string := "Loading..."
  const FailedLabel: string := "Could not load"

  /** One mounted fallback: the `refreshing` prop it was last rendered with, and its
      `showTooltip` state. */
  class FailureFallback {
    const size: Size
    var refreshing: bool
    var showTooltip: bool

    /** The tooltip is never left on while a refresh runs: the button it belongs to is gone, and
        no mouse-leave will come to reset it. */
    predicate Valid()
      reads this
    {
      refreshing ==> !showTooltip
    }

    constructor (size: Option<Size>, refreshing: bool)
      ensures Valid()
      ensures this.size == SizeOrDefault(size)
      ensures this.refreshing == refreshing && !showTooltip
    {
      this.size := SizeOrDefault(size);
      this.refreshing := refreshing;
      showTooltip := false;
    }

    /** The label: `"Loading..."` exactly while refreshing. */
    function Label(): (r: string)
      reads this
      ensures r == LoadingLabel <==> refreshing
      ensures r == FailedLabel <==> !refreshing
    {
      if refreshing then LoadingLabel else FailedLabel
    }

    /** The refresh button is rendered only while not refreshing. */
    predicate HasRefreshButton()
      reads this
    {
      !refreshing
    }

    /** A new `refreshing` prop, followed by the `resetTooltipWhenRefreshing` effect. */
    method SetRefreshing(r: bool)
      requires Valid()
      modifies this
      ensures Valid()
      ensures refreshing == r
      ensures showTooltip == (if r then false else old(showTooltip))
    {
      refreshing := r;
      if refreshing {
        showTooltip := false;
      }
    }

    /** The pointer enters the button; there is no button, hence no event, while refreshing. */
    method MouseEnter()
      requires Valid()
      modifies this
      ensures Valid() && refreshing == old(refreshing)
      ensures showTooltip == (old(showTooltip) || HasRefreshButton())
    {
      if HasRefreshButton() {
        showTooltip := true;
      }
    }

    /** The pointer leaves the button. */
    method MouseLeave()
      requires Valid()
      modifies this
      ensures Valid() && refreshing == old(refreshing)
      ensures showTooltip == (old(showTooltip) && !HasRefreshButton())
    {
      if HasRefreshButton() {
        showTooltip := false;
      }
    }

    /** `handleClick`: calls `onRetry` (reported as `retried`) unless a refresh is under way. */
    method Click() returns (retried: bool)
      ensures retried <==> !refreshing
    {
      if refreshing {
        return false;
      }
      retried := true;
    }
  }
}
