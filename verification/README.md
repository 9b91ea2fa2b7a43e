# Photon-counted mean and EXCAM detector geometry

This project models, in Dafny, the photon-counting core of the corgidrp
pipeline for the Roman Coronagraph EMCCD (EXCAM) detector, together with the
geometry and calibration checks the pipeline uses on the same frames.

- **Photon counting** (`Digitizer`). An analog frame in electrons becomes a
  digital frame: 1 where the value is strictly above the threshold, 0
  elsewhere. Only a 0-dimensional input is refused.
- **Masked co-addition** (`CoAdd`). Frames whose DQ value is nonzero at a
  pixel take no part there. At each pixel, `nframes` is the number of valid
  frames and the co-add is the number of valid frames above threshold.
- **Correction for thresholding and coincidence loss** (`CoincidenceLoss`).
  - `calc_lam_approx` gives a first guess for the mean expected count lambda.
  - `lam_newton_fit` refines that guess with `niter` Newton steps under
    numpy's masked-array rules.
    - A zero guess masks a pixel, and so does a zero co-add.
    - A masked division also masks the pixel.
    - `-=` carries the mask into the estimate and freezes the masked data.
  - The fit then refuses a negative raw estimate and fills masked pixels
    with 0.
  - `corr_photon_count` chains the two.
- **`get_pc_mean`** (`PcMean`). All frames must share EXPTIME, CMDGAIN, KGAIN
  and RN. The VISTYPE split must give exactly two groups, one of them
  `DARK`.
  - Each group is processed into three corrected means: from the data, the
    data plus its error, and the data minus its error.
  - The error is the wider of the two brackets.
  - A pixel is flagged where no frame is valid.
  - The dark mean is then subtracted and clipped at 0. Errors are added in
    quadrature, DQ maps are OR-ed, and a history entry is recorded.
- **Detector geometry** (`Geometry`).
  - `slice_section` cuts a named region out of a frame with Python slice
    semantics and raises on an empty cut.
  - `_imaging_area_geom` and `imaging_slice` derive the imaging area from
    the prescan and overscan regions.
- **Non-linearity table validation** (`RelGains`). The EM-gain axis and the
  count axis must be strictly increasing, and every relative-gain curve must
  contain or straddle 1.0.
- **Row read time** (`RowReadTime`). It is valid only for an observation
  date from 2023-11-01 (the first ground data) up to, but not including,
  2040-01-01.

Values are modelled as follows:

- Doubles are exact reals plus a NaN value (`Float`). Infinities are outside
  the model.
- The masked-division tolerance of numpy is kept: a quotient is masked where
  |a| * 2^-1022 >= |b|.
- `exp`, `log` and `sqrt` are function-valued parameters (`Elementary`). The
  contracts rely only on the laws in `Lawful`: exp is positive, log(1) = 0,
  log is non-positive on (0, 1], and sqrt is non-negative and squares back
  to its argument.
- The photon-counting variance `varL23` is modelled as `VarL23`. It is NaN
  where no frame is valid (an infinite term meets a zero factor there) and
  where the binomial spread under its square root is negative. The NaN
  reaches the per-stack and the combined error maps.

## Model

| member | source | states |
|---|---|---|
| Digitizer.PhotonCount | corgidrp/photon_counting.py:37-59 | fails exactly for a 0-d input; otherwise the result has the input's shape, every entry is 0 or 1, and an entry is 1 exactly where the input is strictly above the threshold |
| Digitizer.DigitizeAll | corgidrp/photon_counting.py:56-57 | the digitized array has the input's shape and is 1 exactly at the entries above the threshold, 0 elsewhere, at every depth |
| Digitizer.PhotonCountStack | corgidrp/photon_counting.py:159 | photon counting a (frame, row, column) stack never raises, and entry (k, i, j) is the digitization of frame k at (i, j) |
| CoAdd.ValidCountIsCardinality | corgidrp/photon_counting.py:160-163 | the nan-sum that gives nframes equals the number of frames whose DQ value is 0 |
| CoAdd.CoaddCountIsCardinality | corgidrp/photon_counting.py:167-171 | the nan-sum of the masked digitized values equals the number of unflagged frames strictly above the threshold |
| CoAdd.CoAddIsMaskedCount | corgidrp/photon_counting.py:159-173 | at every pixel coadd <= nframes <= frame count, with both given as the cardinalities of the unflagged and the unflagged-and-above-threshold frame sets |
| CoAdd.FullyFlaggedPixel | corgidrp/photon_counting.py:160-173 | nframes is 0 exactly when every frame is flagged at the pixel, and then the co-add is 0 |
| CoincidenceLoss.MaDiv | corgidrp/photon_counting.py:297 | a masked-array quotient is defined exactly when abs(a) * 2^-1022 < abs(b), and a defined quotient times the divisor gives back the dividend |
| CoincidenceLoss.LamApprox | corgidrp/photon_counting.py:240-271 | the first guess is NaN exactly when no frame is valid; otherwise it is finite and non-negative, -log(init) where init = 1 - (nobs/nfr) e^(t/g) is positive, nobs/nfr elsewhere, and 0 for a zero count |
| CoincidenceLoss.RootMeaning | corgidrp/photon_counting.py:291-331 | the objective, evaluated on the count map masked at zero, is masked where no count passed the threshold and elsewhere exactly where epsilon_prime is; at a root, nfr * epsilon_prime equals nobs |
| CoincidenceLoss.ObjectiveAtZero | corgidrp/photon_counting.py:322-329 | for positive e^(t/g) and nonzero gain, epsilon_prime is 0 at lambda = 0 and the objective there is -nobs |
| CoincidenceLoss.SlopeAtZero | corgidrp/photon_counting.py:334-353 | for positive e^(t/g) and nonzero gain, the derivative at lambda = 0 is defined exactly when nfr * 2^-1022 < e^(t/g), and is then nfr / e^(t/g) |
| CoincidenceLoss.CommonFactor | corgidrp/photon_counting.py:297 | a positive common factor cancels in a masked quotient: definedness and value are those of the reduced quotient |
| CoincidenceLoss.NewtonStep | corgidrp/photon_counting.py:295-297 | a Newton step is defined exactly when the objective and derivative are and the masked quotient is; a defined step lands on the root of the tangent line, and a root of the objective with a nonzero derivative is a fixed point |
| CoincidenceLoss.UnmaskedPixelsTakeEveryStep | corgidrp/photon_counting.py:289-297 | from a nonzero guess, a pixel stays unmasked exactly when every plain Newton update is defined, and it then holds the k-th Newton iterate |
| CoincidenceLoss.MaskedPixelsAreFrozen | corgidrp/photon_counting.py:289-297 | a pixel whose guess is 0, or whose co-add is 0 once an iteration has run, is masked throughout and keeps its initial data |
| CoincidenceLoss.UnmaskedIsFinite | corgidrp/photon_counting.py:294-297 | after at least one iteration an unmasked pixel holds a finite value |
| CoincidenceLoss.NanMin | corgidrp/photon_counting.py:299 | nanmin is NaN exactly when every entry is NaN; otherwise it is a lower bound of the non-NaN entries and one of them |
| CoincidenceLoss.NanMin2Negative | corgidrp/photon_counting.py:299-301 | the nanmin of a map is negative exactly when some non-NaN entry is negative |
| CoincidenceLoss.LamNewtonFit | corgidrp/photon_counting.py:274-306 | an empty map raises on the reduction; otherwise it raises exactly when some raw estimate (masked pixels included) ends negative, and on success each pixel is its k-step masked iterate filled with 0 where masked |
| CoincidenceLoss.CorrPhotonCount | corgidrp/photon_counting.py:217-237 | a zero gain raises exactly, and an empty map raises on the reduction; otherwise it raises exactly when some pixel's fit, started from the calc_lam_approx guess, ends with a negative raw estimate; on success each pixel is that fit after max(niter, 0) masked Newton updates, filled with 0 where masked; it is never negative, and with at least one iteration it is finite everywhere and 0 where the co-add is 0 |
| CoincidenceLoss.CorrectedPixelMeaning | corgidrp/photon_counting.py:231-237 | after at least one iteration the reported pixel is finite, non-negative unless the pixel raises, and 0 where nothing was counted |
| PcMean.GroupIndices | corgidrp/photon_counting.py:117 | a group's positions are increasing, and they are exactly the positions of the dataset whose frame has the group's VISTYPE |
| PcMean.Frames | corgidrp/photon_counting.py:117-121 | every frame of a VISTYPE group is a frame of the dataset with that VISTYPE, and every such frame of the dataset is in the group |
| PcMean.FramesFollowGroupIndices | corgidrp/photon_counting.py:117-121 | a group holds one frame per group position, and its m-th frame is the dataset's frame at the m-th position, so the group keeps input order |
| PcMean.Stacks | corgidrp/photon_counting.py:117-121 | when the dataset splits into two groups, one of them DARK, the illuminated and the dark stack are those groups, both are non-empty, and their first frames carry the dataset's read noise |
| PcMean.SplitDataset | corgidrp/photon_counting.py:113-121 | each dataset refusal (no frame, mixed configuration, not two VISTYPE groups, no DARK group) happens exactly under its condition, in order; the checks pass exactly when the dataset splits, and then give its two stacks |
| PcMean.ResolveGain | corgidrp/photon_counting.py:138-144 | the EM gain is EMGAIN_M when present, else EMGAIN_A when present, else CMDGAIN |
| PcMean.Advisories | corgidrp/photon_counting.py:145-156 | each of the four warnings is issued exactly under its condition (thresh >= gain, average > 0.1, RN <= 0, thresh < 4 RN) |
| PcMean.BracketError | corgidrp/photon_counting.py:189-192 | the error is the larger of the upper and lower bracket widths; it is at least the variance when either shifted mean lies on its own side of the mean |
| PcMean.VarL23 | corgidrp/photon_counting.py:9-31 | var_L23 is NaN exactly where no frame is valid or the binomial spread N eThresh (1 - eThresh) is negative; otherwise it is non-negative, and it is 0 at a zero mean count |
| PcMean.PixelError | corgidrp/photon_counting.py:189-192 | a pixel's error is NaN exactly where var_L23 is, and otherwise it is the bracket error |
| PcMean.MeanMapMeaning | corgidrp/photon_counting.py:171-184 | each pixel of a stack's corrected mean is corr_photon_count's value at the pixel's co-added count and valid-frame count; it is 0 where every frame is flagged, and non-negative when no pixel raises |
| PcMean.CorrectedMean | corgidrp/photon_counting.py:171-184 | correcting a co-added stack raises on a zero gain exactly, and on an empty map; otherwise it raises exactly when some pixel's fit ends negative; on success it is the corrected-mean map, non-negative, and 0 wherever every frame is flagged |
| PcMean.ErrorMap | corgidrp/photon_counting.py:189-192 | each pixel of a stack's error map is the pixel error of the three corrected means, with var_L23 at the pixel's mean and valid-frame count |
| PcMean.DqMap | corgidrp/photon_counting.py:193 | the stack's DQ map is 0 or 1, and 1 exactly where no frame is valid |
| PcMean.StackOutcomeChecks | corgidrp/photon_counting.py:133-137 | a stack raises on a negative threshold, then on niter < 1, then on a zero gain, each exactly under its condition; any other error comes from corr_photon_count |
| PcMean.StackOutcomeOk | corgidrp/photon_counting.py:126-195 | a stack that passes has a non-negative mean, a DQ flag of 0 or 1 that is 1 exactly where no frame is valid, and there a mean of 0 and a NaN error |
| PcMean.ProcessStack | corgidrp/photon_counting.py:126-195 | a negative threshold, then niter < 1, then a zero gain, then an empty map each raise exactly; otherwise the pass raises NegativeCounts exactly when the correction of the data, of data + err or of data - err raises; on success the mean is the corrected data, the error map is the var_L23-widened bracket of the three corrected maps, DQ flags the pixels with no valid frame, and the advisories are those of the stack's threshold, gain, read noise and average |
| PcMean.Quadrature | corgidrp/photon_counting.py:200 | two errors added in quadrature give a number exactly when both are numbers, and then a non-negative value whose square is the sum of their squares |
| PcMean.Combine | corgidrp/photon_counting.py:197-201 | the rate is the dark-subtracted mean clipped at 0; the error is a number exactly where both stack errors are, and then its square is the sum of their squares; the DQ flag is 1 exactly where either stack's flag is set |
| PcMean.CombinedStacksOk | corgidrp/photon_counting.py:193-201 | combining two processed stacks gives a non-negative rate that is 0 where the illuminated stack has no valid frame, an error that is non-negative where it is a number, and a DQ flag of 1 exactly where either stack has no valid frame, with a NaN error there |
| PcMean.CombinedRate | corgidrp/photon_counting.py:179-180 | the combined rate at each pixel is the corrected mean of the illuminated stack less that of the dark stack, clipped at 0 |
| PcMean.PcMeanOfStacks | corgidrp/photon_counting.py:123-201 | with one threshold for both stacks, a negative threshold, then niter < 1 raise exactly; the illuminated stack's error comes before the dark stack's; on success the result is the combination of the two processed stacks, the rate is the clipped difference of their corrected means, and the advisories are the illuminated stack's then the dark stack's |
| PcMean.GetPcMean | corgidrp/photon_counting.py:113-213 | a dataset refusal is returned as is; otherwise a negative threshold T_factor * RN, then niter < 1 raise exactly, then the illuminated stack's error, then the dark stack's; on success the image is the combination of the two processed stacks with both stacks' advisories, the rate is the clipped difference of their corrected means, the error is non-negative where it is a number, DQ is 1 exactly where the illuminated or the dark stack has no valid frame and the error there is NaN, the rate is 0 where the illuminated stack has no valid frame, and the history records frame count, T_factor and niter |
| Geometry.PySlice | corgidrp/detector.py:65 | a slice selects exactly the indices k in [0, n) with k >= start and k < stop, negative bounds counting from the end; in-range bounds give exactly that range, and non-negative bounds with stop <= start select nothing |
| Geometry.Slice2 | corgidrp/detector.py:65 | a 2-D slice is the rectangle of the row and column ranges, entry by entry |
| Geometry.InRangeSlice | corgidrp/detector.py:65 | with in-range bounds, frame[r0:r1, c0:c1] is the (r1 - r0) x (c1 - c0) window starting at (r0, c0), entry by entry |
| Geometry.UnpackGeom | corgidrp/detector.py:70-77 | a region is found exactly when its key is in the geometry, and a missing key raises naming it |
| Geometry.SliceSection | corgidrp/detector.py:52-68 | a missing key raises; otherwise the cut succeeds exactly when both selected spans are non-empty, raises "Corners invalid" exactly when one is empty, and on success is the selected rectangle of the frame |
| Geometry.SectionInsideFrame | corgidrp/detector.py:63-68 | a non-empty region lying inside the frame is cut out exactly, with no error |
| Geometry.ImagingAreaGeom | corgidrp/detector.py:80-93 | the imaging area exists exactly when the four regions do; its rows are the frame rows less the parallel overscan, its columns are the frame columns less prescan and serial overscan, it ends on the image's last row and starts at the image's column |
| Geometry.ImagingSlice | corgidrp/detector.py:95-104 | the imaging slice exists exactly when the imaging area does, and is that area cut from the frame |
| Geometry.SciImagingArea | corgidrp/detector.py:192-220 | for the SCI geometry the imaging area is 1037 x 1056 at (0, 1088) |
| Geometry.SciImagingSlice | corgidrp/detector.py:192-220 | for the SCI geometry the imaging slice exists and is the 1037 x 1056 window of the frame starting at row 0, column 1088 |
| RelGains.DiffsPositiveIsStrict | corgidrp/detector.py:160-163 | positive adjacent differences are exactly strict increase |
| RelGains.MinMaxStraddle | corgidrp/detector.py:165-166 | "not min > 1 and not max < 1" holds exactly when some value is <= 1 and some value is >= 1 |
| RelGains.CurveStraddles | corgidrp/detector.py:165-168 | a curve passes the min/max test exactly when it contains or straddles 1.0 |
| RelGains.CheckRelgainTable | corgidrp/detector.py:152-168 | a table with no row or column is malformed; the gain axis, then the count axis, must be strictly increasing; a table with no count row below the header raises on the empty reduction; and the table passes exactly when both axes increase, it has a count row, and every curve contains or straddles 1.0; a header-only table with an increasing gain axis raises on the empty reduction |
| RowReadTime.RowReadTimeSec | corgidrp/detector.py:320-341 | the row read time is returned exactly for dates in [2023-11-01, 2040-01-01); earlier dates and later dates raise their own errors |
| RowReadTime.WindowIsInterval | corgidrp/detector.py:329-339 | the accepted dates form an interval |
| RowReadTime.DefaultDateAccepted | corgidrp/detector.py:320-321 | the default date 2024-03-01 is accepted |

## Left out

- Floating point: values are exact reals with NaN. Rounding, overflow to infinity and infinite values are not modelled. The masked-division tolerance is applied to exact values.
- `exp`, `log` and `sqrt` are parameters constrained only by the `Lawful` laws.
- `CoincidenceLoss.Eps`, `CoincidenceLoss.Func` and `CoincidenceLoss.DFunc` transcribe `_calc_func` and `_calc_dfunc` term by term and carry no contracts of their own. The lemmas `RootMeaning`, `ObjectiveAtZero` and `SlopeAtZero` state what is proved about them.
- CoincidenceLoss.DFunc: no contract proves that it is the derivative of `_calc_func`, or gives its value away from lambda = 0. That proof needs nonlinear real arithmetic the solver does not finish.
- Digitizer.NdArray: ragged nestings, which `np.array` refuses, are values of the type. `PhotonCount` digitizes them entry by entry, and no rectangularity is required of its input.
- PcMean.Frame: data and err are exact reals, so NaN input pixels are not modelled. NaN arises only inside the computation, for example from `VarL23` or a zero-frame `LamApprox`.
- The `isinstance` check on `niter` (corgidrp/photon_counting.py:135) is not modelled, because `niter` is always an integer here.
- `Dataset` and `Image` construction, header and file-name copying, and parent-file records (corgidrp/photon_counting.py:202-212) are not modelled. The corgidrp.data module is not part of this model. The history entry is kept as a record of its three fields.
- `split_dataset` is modelled by its effect:
  - one group per distinct key, in input order;
  - `UniformConfig` stands for the first split;
  - `Frames` stands for the VISTYPE split.
- `DetectorParams` is not modelled: `T_factor` is passed as a number.
- Header lookups are not modelled as dictionary reads. EMGAIN_M and EMGAIN_A are optional fields. The other keywords are always present.
- `get_relgains` interpolation (corgidrp/detector.py:170-190) is left out because it uses SciPy splines over floating point. NaN entries in the table are not modelled.
- Loading the metadata YAML (corgidrp/detector.py:37-50) is left out. The geometry is given as a value, and `rowreadtime_sec` is given as a parameter.
- `_unpack_geom`: a region always carries rows, cols and r0c0. Only a missing region key is modelled.
- Observation dates are calendar fields compared lexicographically. Time scales, leap seconds and out-of-range fields are not modelled.
- `create_dark_calib` (corgidrp/detector.py:107-127) and corgidrp/l2a_to_l2b.py are outside this model.
- PcMean.VarL23: where the source computes an infinite term times zero, the model gives NaN directly, since infinities are outside the model. Its eThresh is written with the factor L taken out of the numerator. That is the same real number, but not the same floating-point evaluation.
- PcMean.GetPcMean: states the error map's values per stack (`ProcessStack`) and their combination (`Combine`), but at its own level only the relation to the two processed stacks, their signs and their NaN pixels.
- CoincidenceLoss.CorrPhotonCount: the zero-gain refusal assumes `t / g` is a division of Python scalars, which raises ZeroDivisionError. With an `np.float64` threshold the division gives an infinity and a warning instead; that path is not modelled.
- PcMean.PcMeanOfStacks: when a stack raises, the advisories raised before it are not returned. In the source their warnings have already been issued by then.
