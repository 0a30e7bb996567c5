/** The shared button: prop defaults, the effective `disabled` attribute, the loading spinner
    and the placement of the optional icon. The class strings are not modelled. */
module CustomButton {
  import opened Wrappers

  datatype Variant = Primary | Secondary | Ghost | Accent | Outline
  datatype Size = Small | Medium | Large
  datatype IconPosition = Left | Right

  /** How the caller passed the native `disabled` attribute: not at all, explicitly as
      `undefined`, or as a boolean. The three differ once the remaining props are spread over
      the computed attribute. */
  datatype DisabledProp = Omitted | PassedUndefined | Passed(value: bool)

  /** The props a caller passes; `None` is a prop left out. `hasIcon` says whether a truthy
      icon node was passed. */
  datatype Props = Props(
    variant: Option<Variant>,
    size: Option<Size>,
    isLoading: Option<bool>,
    hasIcon: bool,
    iconPosition: Option<IconPosition>,
    disabled: DisabledProp)

  /** The props after the defaults in the parameter list are applied. */
  datatype Resolved = Resolved(variant: Variant, size: Size, isLoading: bool, iconPosition: IconPosition)

  function Resolve(p: Props): (r: Resolved)
    ensures p.isLoading.None? ==> !r.isLoading
    ensures p.variant.None? && p.size.None? && p.isLoading.None? && p.iconPosition.None? ==>
      r == Resolved(Primary, Medium, false, Left)
  {
    Resolved(p.variant.GetOr(Primary), p.size.GetOr(Medium), p.isLoading.GetOr(false), p.iconPosition.GetOr(Left))
  }

  /** Left-out props take their defaults and passed props are kept as given. */
  lemma ResolveDefaults(p: Props)
    ensures p.variant.None? ==> Resolve(p).variant == Primary
    ensures p.size.None? ==> Resolve(p).size == Medium
    ensures p.isLoading.None? ==> !Resolve(p).isLoading
    ensures p.iconPosition.None? ==> Resolve(p).iconPosition == Left
    ensures p.variant.Some? ==> Resolve(p).variant == p.variant.value
    ensures p.size.Some? ==> Resolve(p).size == p.size.value
    ensures p.isLoading.Some? ==> Resolve(p).isLoading == p.isLoading.value
    ensures p.iconPosition.Some? ==> Resolve(p).iconPosition == p.iconPosition.value
  {
  }

  // ---------------------------------------------------------------- disabled

  /** The `disabled` attribute as the button is written: the computed `isLoading || disabled`
      is overwritten by the spread props whenever the caller passed `disabled` at all. */
  function AsWrittenDisabled(p: Props): (r: bool)
    ensures p.disabled == Omitted || !Resolve(p).isLoading ==> r == IntendedDisabled(p)
  {
    var computed := Resolve(p).isLoading || p.disabled == Passed(true);
    match p.disabled
    case Omitted => computed
    case PassedUndefined => false
    case Passed(value) => value
  }

  /** A loading button that is passed `disabled={false}` (or an explicit `undefined`) is
      enabled, spinner and all. */
  lemma LoadingButtonCanBeEnabled()
    ensures var p := Props(None, None, Some(true), false, None, Passed(false));
      Resolve(p).isLoading && !AsWrittenDisabled(p)
    ensures var p := Props(None, None, Some(true), false, None, PassedUndefined);
      Resolve(p).isLoading && !AsWrittenDisabled(p)
  {
  }

  /** The `disabled` attribute the button evidently means to set: disabled while loading or
      when the caller asks for it. */
  function IntendedDisabled(p: Props): (r: bool)
    ensures Resolve(p).isLoading ==> r
    ensures p.disabled == Omitted ==> r == Resolve(p).isLoading
  {
    Resolve(p).isLoading || p.disabled == Passed(true)
  }

  /** A loading button is always disabled; a button that is not loading is disabled exactly
      when the caller passes `disabled={true}`. */
  lemma LoadingIsDisabled(p: Props)
    ensures Resolve(p).isLoading ==> IntendedDisabled(p)
    ensures !Resolve(p).isLoading ==> (IntendedDisabled(p) <==> p.disabled == Passed(true))
  {
  }

  /** The two definitions differ only on a loading button that is passed `disabled` as
      `false` or `undefined`. */
  lemma IntendedDiffersOnlyWhenLoading(p: Props)
    ensures AsWrittenDisabled(p) != IntendedDisabled(p) <==>
      Resolve(p).isLoading && (p.disabled == Passed(false) || p.disabled == PassedUndefined)
  {
  }

  // ---------------------------------------------------------------- rendering

  /** What the button renders, apart from its class strings and its label. */
  datatype Rendering = Rendering(
    variant: Variant,
    size: Size,
    disabled: bool,
    spinner: bool,
    leftIcon: bool,
    rightIcon: bool)

  function Render(p: Props): (r: Rendering)
    ensures r.spinner <==> Resolve(p).isLoading
    ensures r.leftIcon <==> p.hasIcon && Resolve(p).iconPosition == Left && !Resolve(p).isLoading
    ensures r.rightIcon <==> p.hasIcon && Resolve(p).iconPosition == Right
    ensures r.disabled == IntendedDisabled(p)
  {
    var q := Resolve(p);
    Rendering(
      q.variant,
      q.size,
      IntendedDisabled(p),
      q.isLoading,
      p.hasIcon && q.iconPosition == Left && !q.isLoading,
      p.hasIcon && q.iconPosition == Right)
  }

  /** The icon is rendered on at most one side. */
  lemma IconOnOneSide(p: Props)
    ensures !(Render(p).leftIcon && Render(p).rightIcon)
  {
  }

  /** Loading replaces a left icon by the spinner and leaves a right icon in place; nothing
      else about the icons depends on loading. */
  lemma LoadingHidesOnlyLeftIcon(p: Props)
    ensures var loading := Render(p.(isLoading := Some(true)));
      var idle := Render(p.(isLoading := Some(false)));
      && loading.spinner && !loading.leftIcon && loading.disabled
      && (AsWrittenDisabled(p.(isLoading := Some(true))) <==> p.disabled != Passed(false) && p.disabled != PassedUndefined)
      && !idle.spinner
      && loading.rightIcon == idle.rightIcon
      && idle.leftIcon == (p.hasIcon && Resolve(p).iconPosition == Left)
  {
  }

  /** A button with no props is a medium primary button, enabled, without a spinner. */
  lemma DefaultButton()
    ensures Render(Props(None, None, None, false, None, Omitted)) ==
      Rendering(Primary, Medium, false, false, false, false)
  {
  }
}
