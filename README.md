# luxpy spdbuilder in Dafny

A Dafny model of the spectrum builder of luxpy, `luxpy/spectral/spdbuilder.py`.
It covers:

- the LED spectrum models: Gaussian lobes, Ohno's monochromatic LED with its
  shoulder, and the phosphor LED with its blend, piecewise clamp and
  normalisation;
- the closed-form three-source colour mixer `color3mixer`;
- the N-source reduction `colormixer`: pairwise merges into virtual sources,
  then back-propagation of the final three fluxes down the merge tree;
- `spd_builder`, which builds spectra, optionally at a target chromaticity and
  with flux weights;
- the weighted-sum constructor `get_w_summed_spd` and the fitness function
  `fitnessfcn`;
- `component_triangle_optimizer`, which enumerates component triples, drops
  out-of-gamut ones, minimises over triangle weights and maps the weights back
  to component fluxes;
- the mode dispatch and structural errors of `spd_optimizer`.

Floating-point numbers are `real`. A flux numpy would make NaN is `Num.NaN`.
A whole spectrum row that would be NaN is a `None` curve. Each numpy
exception is an `Err` carrying the kind of error the code raises. numpy's
broadcasting of parameter lists is modelled wherever the model takes lists
(the exceptions are under "## Left out"). So in phosphor mode one pump row
with a list of strengths gives one spectrum per strength.

The functions the code calls but does not define are function-valued
parameters:

- `np.exp`, with the range it has for non-positive arguments;
- `np.round` and `np.sqrt`;
- `scipy.optimize.minimize`, of which only the length of the result it
  returns is known;
- the colorimetry (`spd_to_xyz`, `xyz_to_Yxy`), as a function from a spectrum
  to its Yxy. The target's `colortf` conversion (:353, :918) is not a
  parameter: the model takes the target already as a Yxy.

The random ratios of `colormixer` are an input.

Modules, one file each:

- `Numeric` (numeric.dfy): shared values — Result, Num, Yxy/Xyz, curves,
  division, dot products, normalisation.
- `Emitter` (emitter.dfy): `gaussian_spd`, `mono_led_spd`, `phophor_led_spd`.
- `Mixer` (mixer.dfy): `color3mixer`.
- `ColorMixing` (colormixer.dfy): `colormixer`.
- `Fitness` (fitness.dfy): `get_w_summed_spd`, `fitnessfcn`.
- `Triangle` (triangle.dfy): `component_triangle_optimizer`.
- `Builder` (builder.dfy): `spd_builder`.
- `Optimizer` (optimizer.dfy): `spd_optimizer`.

The loops of the code are methods with loop invariants, each proved equal to
a specification function:

- the clamp loops of `phophor_led_spd`;
- the merge loop and the back-propagation loop of `colormixer`;
- the objective loop of `fitnessfcn`;
- the three loops of the triangle optimizer.

The properties are lemmas about those functions.

Behaviour of the code that the model keeps as it is:

- `spd_optimizer` returns the weighted sum of the component spectra as it is;
  it does not divide it by its maximum.
- `phophor_led_spd` with `with_wl=True` raises, because it stacks a 1-D
  wavelength row onto 3-D component arrays.
- The phosphor-mode component clamp looks up `peakwl` by component index. It
  therefore raises an IndexError when there are fewer pump peaks than
  components.
- The spectrum clamp of `phophor_led_spd` runs over the pump rows. When one
  pump row is broadcast against a list of strengths, only the first spectrum
  is clamped.

## Model

| member | source | states |
|---|---|---|
| Emitter.GaussianBounds | luxpy/spectral/spdbuilder.py:58 | exp(-0.5·((w-peak)/fwhm)²) lies in (0,1] and is 1 exactly at the peak |
| Emitter.GaussianSpdBounds | luxpy/spectral/spdbuilder.py:57-61 | gaussian_spd without wavelengths gives one row per broadcast (peak, fwhm) pair, every sample in (0,1], equal to 1 exactly at that row's peak |
| Emitter.GaussianSpdWithWlAsWritten | luxpy/spectral/spdbuilder.py:59-61 | with_wl=True as written: one lobe gives a single row of length 2W that starts with the wavelengths; several lobes give a shape error |
| Emitter.GaussianSpdWithWlLayout | luxpy/spectral/spdbuilder.py:59-61 | corrected layout: a wavelength row followed by exactly the rows without wavelengths, all of width W |
| Emitter.MonoLedBounds | luxpy/spectral/spdbuilder.py:89 | for g in [0,1] and shoulder s ≥ 0, (g + s·g⁵)/(1+s) lies in [0,1], is 1 exactly when g = 1, and is positive when g is |
| Emitter.MonoLedSpdBounds | luxpy/spectral/spdbuilder.py:88-92 | mono_led_spd is the optional wavelength row followed by the shoulder formula applied row by row to the Gaussians; every sample in (0,1], 1 exactly at the row's peak |
| Emitter.BlendBetween | luxpy/spectral/spdbuilder.py:181-182 | without a second strength and with strength_ph1 in [0,1], every sample of the phosphor mixture lies between the two phosphor samples; strength_ph1 = 1 gives phosphor 1 alone, 0 gives phosphor 2 |
| Emitter.BlendPositive | luxpy/spectral/spdbuilder.py:178-182 | with physical strengths (a fraction without a second strength, or one positive strength_ph1 with it), the mixture of two positive phosphor rows is positive |
| Emitter.ClampShrinks | luxpy/spectral/spdbuilder.py:207-216 | with a factor row in [0,1], as a pump row is, the clamp never raises a non-negative sample and keeps every sample at and above the peak |
| Emitter.TimesPiecewise | luxpy/spectral/spdbuilder.py:208-216 | multiplying by the piecewise function f' (f below the peak, 1 from the peak on) is the same as clamping |
| Emitter.ClampComponentsLoop | luxpy/spectral/spdbuilder.py:207-211 | the component loop raises IndexError when there are more components than peaks, and otherwise clamps component i of every group at peak i |
| Emitter.ClampComponentStep | luxpy/spectral/spdbuilder.py:209-211 | one turn of the component loop extends the clamp from components 0..i-1 to 0..i |
| Emitter.ClampRowsLoop | luxpy/spectral/spdbuilder.py:212-216 | the row loop runs over the pump rows. It raises IndexError when they outnumber the peaks or the spectra. Otherwise it clamps spectrum i against pump row i at peak i, and leaves spectra beyond the pump rows alone |
| Emitter.PhosphorRows | luxpy/spectral/spdbuilder.py:176-185 | phosphor mode has a shape exactly when numpy's broadcast of the pump rows against strength_ph1, strength_ph2 and strength_ph has one (and the s1+s1 row fits the grid); it then gives PhosphorCount spectra of the grid's width |
| Emitter.BroadcastSizes | luxpy/spectral/spdbuilder.py:176-185 | once that broadcast has a shape, every strength list, and the pump block, has one entry or one per spectrum |
| Emitter.PhosphorLed | luxpy/spectral/spdbuilder.py:166-249 | with_wl=True always raises. A result has as many spectra as the broadcast gives, all of the grid's width. Every component group has one curve per component. With the clamp, every pump row has its peak and its spectrum |
| Emitter.PhosphorLedSpd | luxpy/spectral/spdbuilder.py:166-249 | the method, with its clamp loops, computes exactly the specification PhosphorLed |
| Emitter.OnePumpRowClampsFirst | luxpy/spectral/spdbuilder.py:176-219 | one pump row against longer strength lists gives one spectrum per strength; only the first is clamped, and the others are normalised unclamped |
| Emitter.PhosphorLedNormalized | luxpy/spectral/spdbuilder.py:218-220 | with non-negative shoulder and strengths, as many spectra as the broadcast gives; every spectrum and every component curve has samples in (0,1] and maximum 1 |
| Emitter.MonoModeComponents | luxpy/spectral/spdbuilder.py:190-220 | when no phosphor strength is positive, spectrum i is mono-LED row i, clamped at peak i when piecewise is on, then normalised; there is one per pump row, and the components are the single group of those spectra |
| Emitter.PhosphorLedRaises | luxpy/spectral/spdbuilder.py:175-242 | with_wl=True always raises; in phosphor mode, asking only for the components raises, because `spd` is never assigned |
| Emitter.ZeroStrengthPh1NanRows | luxpy/spectral/spdbuilder.py:179-185 | with two strengths and strength_ph1 = 0, every spectrum row is NaN (the s1+s1 denominator is zero) |
| Emitter.DenominatorCancels | luxpy/spectral/spdbuilder.py:180-185 | for a positive scalar s1 the row-max normalisation cancels the s1+s1 denominator: the spectrum equals the one built with the raw numerator, and the one built with the blend divided by s1+s2 |
| Mixer.Color3Mixer | luxpy/spectral/spdbuilder.py:440-456 | flux i is NaN exactly when yt times the triangle determinant is zero or Y_i is zero |
| Mixer.SameDenominator | luxpy/spectral/spdbuilder.py:452-454 | the third denominator equals the other two, and all three fluxes are numbers exactly when yt, the determinant and every Y_i are non-zero |
| Mixer.Barycentric | luxpy/spectral/spdbuilder.py:452-454 | the three numerators sum to the determinant and, weighted by the sources' x and y, give the determinant times the target's x and y |
| Mixer.Color3MixerMatchesTarget | luxpy/spectral/spdbuilder.py:452-456 | for non-zero yt, y_i, Y_i and a non-degenerate triangle, the three sources' tristimulus values mixed at the returned fluxes equal the target's |
| Mixer.Color3MixerInGamut | luxpy/spectral/spdbuilder.py:452-456 | for positive luminances and y, all three fluxes are non-negative exactly when the target lies in the closed triangle of the sources |
| ColorMixing.ColorMixerSpec | luxpy/spectral/spdbuilder.py:489-605 | IndexError exactly for fewer than 3 sources or, above 3, fewer than n-3 ratios; for 3 sources it is color3mixer on rows 0,1,2; otherwise n fluxes, all numbers or all NaN |
| ColorMixing.ColorMixer | luxpy/spectral/spdbuilder.py:489-607 | the method, with its merge and back-propagation loops, computes exactly ColorMixerSpec |
| ColorMixing.MergeSources | luxpy/spectral/spdbuilder.py:505-572 | the merge loop raises exactly when ratios run out; otherwise it makes exactly n-3 merges and builds a 2n-3 row table: the sources, then virtual row n+k merging rows 2k and 2k+1 with ratio k and stored fractions (r, 1-r); the live list ends as the last three rows |
| ColorMixing.MergeTurn | luxpy/spectral/spdbuilder.py:509-572 | one merge appends one row and leaves the live list as the consecutive ids [2kk+2, n+kk+1), one shorter than before; the pass counter resets when a pass is used up |
| ColorMixing.CombinePair | luxpy/spectral/spdbuilder.py:510-562 | a merge takes ids 2kk and 2kk+1 from the live list and extends the table by the merged row |
| ColorMixing.UpdateLive | luxpy/spectral/spdbuilder.py:546-564 | the pass lists grow by the new id and the merged pair, and the new live list is the remaining consecutive range |
| ColorMixing.SetDiff1dSorted | luxpy/spectral/spdbuilder.py:564 | np.setdiff1d gives a strictly increasing list holding exactly the members of a that are not in b |
| ColorMixing.UniqueSorted | luxpy/spectral/spdbuilder.py:564 | np.unique gives a strictly increasing list with the same members |
| ColorMixing.LiveAfterMerge | luxpy/spectral/spdbuilder.py:564 | live ids minus the merged ids, followed by the new ids of this pass, is the range [2kk+2, n+kk+1) |
| ColorMixing.MergeTristimulus | luxpy/spectral/spdbuilder.py:525-535 | the virtual source of a merge with ratio r has tristimulus r·T_A + (1-r)·T_B |
| ColorMixing.BackPropagate | luxpy/spectral/spdbuilder.py:579-600 | the back-propagation loop gives every source its final flux times the product of the fractions stored on its merge path (r for the first parent, 1-r for the second); a source never merged keeps its final flux |
| ColorMixing.PassDown | luxpy/spectral/spdbuilder.py:586-599 | one backward turn scales both parents of row i by row i's settled fraction and changes no other row |
| ColorMixing.ChildWeights | luxpy/spectral/spdbuilder.py:592-597 | the two parents of a virtual source get r and 1-r times its flux |
| ColorMixing.ColorMixerNonNegative | luxpy/spectral/spdbuilder.py:575-602 | with ratios in [0,1], every returned flux that is a number is non-negative |
| ColorMixing.ColorMixerMatchesTarget | luxpy/spectral/spdbuilder.py:575-600 | for positive Y and y and ratios in [0,1], when the fluxes are numbers the sources mixed at those fluxes reproduce the target's tristimulus |
| ColorMixing.ColorMixerInGamut | luxpy/spectral/spdbuilder.py:575-602 | for positive Y and y, the fluxes are numbers exactly when the three final virtual sources span a non-degenerate triangle that contains the target |
| Fitness.WSummedSpd | luxpy/spectral/spdbuilder.py:627 | shape error exactly when the weights and the component rows differ in number; otherwise the wavelength row is kept and one row follows |
| Fitness.WSummedUnit | luxpy/spectral/spdbuilder.py:627 | a unit weight vector picks its component row out unchanged |
| Fitness.WSummedSignFree | luxpy/spectral/spdbuilder.py:627 | the weights enter by absolute value: w and abs(w) build the same spectrum |
| Fitness.WSummedNonNeg | luxpy/spectral/spdbuilder.py:627 | non-negative components give a non-negative weighted sum, whatever the signs of the weights |
| Fitness.Tiled | luxpy/spectral/spdbuilder.py:669-671 | decimals and weights broadcast to N objectives: a list of length N is kept, a single value is repeated N times, N = 1 keeps the list, and any other length is a shape error |
| Fitness.FillTerms | luxpy/spectral/spdbuilder.py:679-695 | the loop succeeds exactly when every present objective has its target, weight and decimals, and then fills F and obj_vals as Terms and ObjVals |
| Fitness.FitnessFcn | luxpy/spectral/spdbuilder.py:663-712 | the method computes exactly the specification Fitness |
| Fitness.Fitness | luxpy/spectral/spdbuilder.py:663-712 | a result has one objective value per objective function. It has a total when F_rss is set and one term per objective otherwise. Its meaning is stated by FitnessZeroIff, FitnessNonNeg and SkippedObjectives |
| Fitness.Evaluate | luxpy/spectral/spdbuilder.py:668-712 | the same for a built spectrum, which is returned unchanged; an empty objective list never succeeds |
| Fitness.TermZero | luxpy/spectral/spdbuilder.py:683-688 | with a positive weight, w·((round(v,d)-t)/s)² is zero exactly when the rounded value equals the target |
| Fitness.SkippedObjectives | luxpy/spectral/spdbuilder.py:679-695 | an objective value, and a per-objective term, is NaN exactly when its objective function is None |
| Fitness.FitnessNonNeg | luxpy/spectral/spdbuilder.py:688-698 | with non-negative weights, the root-sum-of-squares total and every non-NaN term are non-negative |
| Fitness.FitnessZeroIff | luxpy/spectral/spdbuilder.py:679-698 | with positive weights and F_rss, the total is zero exactly when every present objective, rounded to its decimals, hits its target |
| Fitness.NanSumZero | luxpy/spectral/spdbuilder.py:698 | a nansum of non-negative terms is zero exactly when every non-NaN term is zero |
| Triangle.CombosMembers | luxpy/spectral/spdbuilder.py:770 | the combinations are exactly the triples a < b < c < N |
| Triangle.CombosSorted | luxpy/spectral/spdbuilder.py:770 | they come in lexicographic order |
| Triangle.KeptMembers | luxpy/spectral/spdbuilder.py:776-778 | the kept triangles are exactly the combinations whose three fluxes are all non-negative numbers |
| Triangle.KeptSorted | luxpy/spectral/spdbuilder.py:776-778 | the filter keeps the lexicographic order |
| Triangle.KeptMatchesTarget | luxpy/spectral/spdbuilder.py:773-778 | every kept triangle mixed at its fluxes reproduces the target's tristimulus |
| Triangle.RgbLoop | luxpy/spectral/spdbuilder.py:782-785 | the loop fills row i of spds_rgb with triangle i's components mixed at its fluxes |
| Triangle.ScoreLoop | luxpy/spectral/spdbuilder.py:803-806 | the loop scores each unit weight vector with the fitness function, in order |
| Triangle.ArgMin | luxpy/spectral/spdbuilder.py:807 | numpy argmin: the first NaN if there is one, otherwise the first smallest score |
| Triangle.Seed | luxpy/spectral/spdbuilder.py:802-807 | the start point is the best unit vector plus 0.01 in every entry |
| Triangle.FluxLoop | luxpy/spectral/spdbuilder.py:820-823 | the loop gives component i the sum, over triangles containing i, of the triangle weight times its flux for i |
| Triangle.TriangleOptimizer | luxpy/spectral/spdbuilder.py:764-827 | the method, with its three loops, computes exactly the specification TriangleSpec |
| Triangle.TriangleSpec | luxpy/spectral/spdbuilder.py:764-778 | the default Yxyi raises NameError, fewer than 3 components or too few colours raise IndexError, and a result has one flux per component. Its content is stated by TriangleFluxes and TriangleSpectrum |
| Triangle.Weigh | luxpy/spectral/spdbuilder.py:787-827 | no in-gamut triangle leaves `fit_fcn` undefined; a single one indexes past `x_final`; a result needs two triangles and has one flux per component |
| Triangle.FewTriangles | luxpy/spectral/spdbuilder.py:787-823 | with at most one in-gamut triangle the minimiser is skipped and the optimizer fails |
| Triangle.TriangleFluxes | luxpy/spectral/spdbuilder.py:814-823 | one flux per component, all non-negative, and zero for a component whose every triangle is out of gamut |
| Triangle.RgbMix | luxpy/spectral/spdbuilder.py:782-823 | weighting the triangle spectra by x is the same as weighting the components by the fluxes mapped back from x |
| Triangle.TriangleSpectrum | luxpy/spectral/spdbuilder.py:782-826 | the optimised spectrum is the components weighted by the returned fluxes |
| Builder.MixGroup | luxpy/spectral/spdbuilder.py:367-373 | colormixer on one group raises exactly as ColorMixerSpec does; a group with a missing component gives NaN fluxes |
| Builder.TargetRow | luxpy/spectral/spdbuilder.py:378-385 | a target row is present exactly when every flux is a non-negative number, every component is present and the weighted sum normalises; it is then the normalised weighted sum |
| Builder.TargetNeedsThree | luxpy/spectral/spdbuilder.py:343-344 | with a target and fewer than three mono-LED components, spd_builder raises |
| Builder.Targeted | luxpy/spectral/spdbuilder.py:338-385 | fewer than three components per group raises; several groups (phosphor LEDs) always succeed; a result has one spectrum per group, of the grid's width. LoneGroupRow, PhosphorRowInGamut and TargetRow state the rows |
| Builder.PhosphorRowInGamut | luxpy/spectral/spdbuilder.py:374-385 | for phosphor groups of physical colours, a row that survives the out-of-gamut marking has its target inside the group's triangle |
| Builder.LoneGroupRow | luxpy/spectral/spdbuilder.py:367-385 | a single group of more than three LEDs gets the row of the colormixer fluxes |
| Builder.LoneGroupInGamut | luxpy/spectral/spdbuilder.py:367-385 | such a row survives only when the target lies in the final colormixer triangle |
| Builder.FluxMixSkipsNaN | luxpy/spectral/spdbuilder.py:407-411 | the flux-weighted sum ignores the weights of NaN rows and, with no NaN rows, is the plain weighted sum |
| Builder.FluxMixMismatch | luxpy/spectral/spdbuilder.py:409 | a flux array whose width differs from the number of rows is ignored |
| Builder.FluxMix | luxpy/spectral/spdbuilder.py:407-411 | with a matching flux there is one spectrum per flux row and none is NaN (NaN rows are dropped before the product); otherwise the spectra are returned as they are |
| Builder.Compose | luxpy/spectral/spdbuilder.py:338-416 | the result has the wavelength row first when asked for, every row has the grid's width, and after the final division every spectrum is NaN or holds 1 at its maximum (1 is the largest sample when the maximum is positive and the smallest when it is negative) |
| Builder.NormalizedRows | luxpy/spectral/spdbuilder.py:412 | dividing each row by its maximum leaves it NaN or with a 1 at the maximum, as the largest sample for a positive maximum and as the smallest for a negative one |
| Builder.SpdBuilder | luxpy/spectral/spdbuilder.py:253-416 | spd_builder passes on phophor_led_spd's errors and otherwise has Compose's properties: the wavelength row first when asked for, the grid's width, and every spectrum NaN or normalised to a 1 at its maximum |
| Builder.PlainBuilder | luxpy/spectral/spdbuilder.py:331-416 | with no target, no flux and no verbosity, spd_builder returns the phosphor-LED spectra under the optional wavelength row |
| Builder.VerboseRaises | luxpy/spectral/spdbuilder.py:393-396 | verbosity above zero raises NameError on the undefined `M` whenever there is a spectrum |
| Optimizer.ComponentSpectra | luxpy/spectral/spdbuilder.py:886-901 | given spectra are used as they are; only a bare component count leaves no spectra |
| Optimizer.BuiltRows | luxpy/spectral/spdbuilder.py:886-893 | spectra built from physical LED parameters have no NaN rows |
| Optimizer.KindOf | luxpy/spectral/spdbuilder.py:915-946 | "3mixer", "mixer" and "search" each select their own branch, exactly when the string is that name; every other string is an unknown mode carrying the name |
| Optimizer.CountOnly | luxpy/spectral/spdbuilder.py:894-946 | with only a count, '3mixer' is unsupported, fewer than 3 raises, 'mixer' and 'search' are not implemented, any other mode fails on the undefined `M` |
| Optimizer.GivenDispatch | luxpy/spectral/spdbuilder.py:899-946 | with given spectra: fewer than 3 raises, 'mixer' and 'search' are not implemented, an unknown mode fails, and a success is '3mixer' with one flux per component |
| Optimizer.ThreeComponents | luxpy/spectral/spdbuilder.py:921-949 | with exactly three components the fluxes are color3mixer's and the spectrum is their weighted sum |
| Optimizer.TriangleComponents | luxpy/spectral/spdbuilder.py:925-949 | with more components the fluxes are the triangle optimizer's, all non-negative, and the spectrum is its optimised one |
| Optimizer.SpdOptimizer | luxpy/spectral/spdbuilder.py:948-953 | a result holds one mixed spectrum, under the wavelength row when with_wl is set |

## Left out

- Plotting, `print` and warnings (`verbosity` > 0) are not modelled. The one
  exception is `spd_builder`, whose verbose path is modelled because it fails
  on the undefined `M`.
- The global `optcounter` only counts calls and is not modelled. The model
  takes it as already bound: `fitnessfcn` called before
  `component_triangle_optimizer` has bound it (:789-790) would raise a
  NameError at :659-660.
- The `out` selector of `fitnessfcn` is not modelled: the model returns F,
  obj_vals and the spectrum together. The `eval(out)` fallback is left out.
- The `__main__` demonstration is not modelled.
- `np.exp`, `np.round`, `np.sqrt`, `scipy.optimize.minimize` and the colorimetry
  (`spd_to_xyz`, `xyz_to_Yxy`) are parameters. Their numerics, and
  which point the minimiser finds, are outside the model.
- `getwlr` and the `_WL3` default grid are not modelled; the wavelength grid
  is an input.
- The random default `ratios` of `colormixer` is an input.
- The NaN-retry loop of `spd_builder` (:368-371) may never end and is not
  modelled. A missing `ratios` is handled as if it were given.
- A custom `source_order` of `colormixer` is not modelled. The default order is
  modelled; it makes the live list a consecutive range.
- Several target rows at once (batched `Yxyt`) are not modelled; one target is.
- `colortf(target, tar_type+'>Yxy')` (:353, :918) is not modelled: a target
  given in another `tar_type` is converted to Yxy by the caller.
- IEEE infinities are not modelled. A division by zero in the mixtures, the
  colour mixers and the row normalisations yields the NaN variant or a `None`
  row.
- A zero pump `fwhm`, a zero phosphor `fwhm` in phosphor mode and a shoulder
  strength of -1 are excluded by precondition (`Emitter.LedParams.Admissible`,
  `Emitter.MonoLed`); outside phosphor mode the phosphor widths are never read
  and may be anything. numpy raises for none of them: a zero `fwhm` makes the
  Gaussian row zero (NaN at a sample exactly on the peak) at :58, which the row
  normalisation at :218-219 turns into a NaN row; a shoulder of -1 divides by
  zero at :89 and gives rows of infinities or NaN.
- The intermediate lists `m_s`, `m_m` and `m_su` of `colormixer` are built but
  never read, and are not modelled.
- `np.int` on the source ids read from `m_so` (:511-512) is not modelled as a
  truncation: the model's ids are natural numbers already.
- `component_triangle_optimizer`'s `Nc == 1` branch is modelled only as far as
  it skips the minimiser and then fails. Its shape-inconsistent reconstruction
  is not modelled.
- Optimizer.SpdOptimizer: its own contract gives only the shape of the
  result; the content is stated by ThreeComponents and TriangleComponents.
  It requires `Optimizer.Physical`. Given component spectra must be shaped and
  have no NaN rows. Built ones must have admissible LED parameters that are
  `Emitter.Physical`:
  - a non-negative shoulder and strength_ph;
  - strength_ph1 in [0,1] when there is no strength_ph2;
  - otherwise a single positive strength_ph1 and a non-negative strength_ph2.

  BuiltRows shows that such parameters give spectra without NaN rows.
- Triangle.FluxesOf: its own contract gives only the length; FluxLoop,
  TriangleFluxes and RgbMix state what the fluxes are.
- The shoulder of the pump LEDs is a scalar. numpy would also broadcast a
  shoulder list of length W along the wavelength axis (:89); such lists are
  not modelled.
- On a grid of a single wavelength, numpy would broadcast a longer
  strength_ph1 list under a second strength along the wavelength axis, making
  the spectra wider than the grid. The model reports a shape error there.
- Builder.Compose: states that every spectrum it returns holds 1 at its
  maximum, not that its maximum is 1. A spectrum whose maximum is negative
  (from negative flux weights) divides to a row whose smallest sample is 1.
- Builder.MixGroup: does not state the fluxes of a complete group; LoneGroupRow
  ties them to ColorMixerSpec.

## Findings

| source | as written | input that shows it | evidently intended | confidence | as-written member | corrected member |
|---|---|---|---|---|---|---|
| luxpy/spectral/spdbuilder.py:59-61 | `np.vstack((wl, spd))` stacks the (W,1) wavelength column on the (W,R) samples and then transposes | one lobe gives one row of 2W values instead of two rows; two lobes raise a shape error | a first row of wavelengths followed by one row per lobe | not executed | Emitter.GaussianSpdWithWlAsWritten | Emitter.GaussianSpdWithWlLayout |
