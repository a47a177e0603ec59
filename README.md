# DEM downscaling — a verified Dafny model

This project models the core of a QGIS plugin that downscales a digital
elevation model (DEM). Each coarse cell is replicated into a `zoom × zoom`
block. An iterative loop then adds two correction fields to the fine grid,
and stops once the total correction energy settles:

- a *spatial dependence* field pulls each pixel towards the mean of its
  valid 3×3 neighbours;
- an *elevation constraint* field pulls each block back towards its coarse
  cell.

Nodata pixels never take part and keep the nodata value.

The model also covers the pre-flight memory and runtime estimates and two
helper scripts:

- the packaging script: which files go into the repository ZIP, the plugin
  name, the archive entry names and the missing-required-files check;
- the metadata rewrite: it points `repository=` and `tracker=` at a GitHub
  account.

Modules:

- `Grids`: grids as `seq<seq<real>>` (row = numpy axis 0), masks, rectangle
  sums, window clipping, and nearest-neighbour block expansion (`np.repeat`
  on both axes).
- `Estimates`: `estimate_memory_usage` and `estimate_runtime`, including
  Python's `int()` truncation and float `%` in the time text.
- `Initializer`: `initialize`.
- `SpatialDependence`: a reference definition (the explicit 8-neighbour
  count and sum, and `Correction`) and the three engines:
  - the pixel loop (a method filling a 2-D array);
  - the zero-padded convolution;
  - the GPU roll kernel.
- `ElevationConstraint`: the reference `ExpectedCorrection` and two engines:
  - the block loop (a method filling a 2-D array);
  - the reshape/repeat version.
- `Downscale`:
  - the two dispatchers, with GPU and SciPy fallbacks;
  - the nodata mask and its re-application;
  - the geotransform;
  - the convergence loop of `downscale_dem`, specified by the function
    `Converge` over `LoopState` and run by the method `ConvergenceLoop`;
  - the returned summary.
- `Strings`: `startswith`, `endswith`, `in`, single-character `replace` and
  `strip`.
- `Packaging` and `MetadataUrls`: the two helper scripts.

Where the engines differ, the model keeps the difference and proves where
it shows:

- **Spatial dependence: neighbour threshold.** The loop corrects a pixel
  with at least one valid neighbour. The convolution version needs at least
  two. `LoopAndVectorizedAgree` states exactly when the two agree.
- **Elevation constraint: `rsme <= 0`.** The loop always damps by 0.8. The
  vectorized version damps only corrections smaller than 3 in absolute
  value (`DampVersionsAgree`).
- **GPU kernel: edges.** The GPU kernel wraps around the grid edges
  (`cp.roll`). It matches the convolution in the interior
  (`GpuMatchesInside`) and differs at a corner (`GpuWrapsAtCorner`).
- **Elevation loop: zoom.** The loop computes the zoom from the row counts
  only.
- **Driver: `Energy_new`.** When the loop never runs, `Energy_new` is
  unbound. This happens when `max_iterations <= 0` or `threshold >= 1e8`.
  The raster is still written, and the summary is then an error result.
- **Elevation dispatcher: GPU.** The dispatcher calls an
  `elevation_constraint_gpu` that does not exist, so the call always falls
  back. The model therefore never takes a GPU path for the elevation
  constraint.

## Model

| member | source | states |
|---|---|---|
| Estimates.MemoryEstimateScales | dem_downscaling_algorithm.py:166-203 | output size is (w·zoom, h·zoom); output MB = input MB·zoom²; temp = 3·output; total = input·(1+4·zoom²) and is never below the input |
| Estimates.EstimateMemoryUsage | dem_downscaling_algorithm.py:166-203 | the output size is (width·zoom, height·zoom) |
| Estimates.EstimateRuntime | dem_downscaling_algorithm.py:228-260 | the rate, 50 iterations and the mode label all come from the one chosen backend; total = rate·Mpix·50 + 5 s; the time text renders that total |
| Estimates.FasterModeEstimatesLess | dem_downscaling_algorithm.py:239-260 | for a non-empty raster the GPU estimate < vectorized < loop-based |
| Estimates.FormatTime | dem_downscaling_algorithm.py:263-272 | seconds are shown exactly below 60 s, hours and minutes exactly from 3600 s, minutes and seconds in between |
| Estimates.FormatTimeMeaning | dem_downscaling_algorithm.py:263-272 | under a minute: whole seconds; under an hour: minutes·60+seconds = whole seconds with both in range; otherwise hours and minutes within one minute of the duration |
| Initializer.Initialize | dem_downscaling_algorithm.py:333-350 | the band has rows·zoom rows; an expanded mask is returned exactly when a mask was given |
| Initializer.InitializeShapes | dem_downscaling_algorithm.py:333-350 | band and expanded mask are (rows·zoom, cols·zoom); the mask is absent exactly when none was given |
| Initializer.InitializeReplicates | dem_downscaling_algorithm.py:333-350 | each sub-pixel (r, c) holds the value of its parent cell (r/zoom, c/zoom), and the expanded mask cell holds the parent's mask cell |
| Initializer.InitializeExample | dem_downscaling_algorithm.py:341-342 | a 2×2 grid at zoom 2 becomes four constant 2×2 quadrants |
| SpatialDependence.PixelCorrection | dem_downscaling_algorithm.py:407-453 | one pixel of the loop: 0 when masked or with no valid neighbour, otherwise the mean of the valid neighbours minus the pixel |
| SpatialDependence.SpatialDependenceLoop | dem_downscaling_algorithm.py:400-461 | every cell of the loop result is the reference correction with at least one valid neighbour |
| SpatialDependence.ConvolveCountsNeighbours | dem_downscaling_algorithm.py:481-501 | the zero-padded 3×3 convolution of the valid mask and of the masked grid give the valid-neighbour count and sum |
| SpatialDependence.SpatialDependenceVectorized | dem_downscaling_algorithm.py:464-519 | every cell is the reference correction requiring at least two valid neighbours |
| SpatialDependence.LoopAndVectorizedAgree | dem_downscaling_algorithm.py:448-453 | loop and vectorized values agree exactly when the pixel is masked, has other than one valid neighbour, or that neighbour equals it |
| SpatialDependence.SpatialDependenceGpu | dem_downscaling_algorithm.py:522-591 | the GPU field has the grid's shape and is 0 on every nodata pixel |
| SpatialDependence.GpuMatchesInside | dem_downscaling_algorithm.py:522-591 | away from the border the rolled-sum GPU kernel equals the convolution version |
| SpatialDependence.GpuWrapsAtCorner | dem_downscaling_algorithm.py:551-566 | on a 3×3 grid with 9 in the far corner the GPU kernel gives 9/8 at (0,0) where the convolution gives 0 |
| ElevationConstraint.DampBounds | dem_downscaling_algorithm.py:716-718 | the damped correction is 0.8·d or d, never larger in size, and zero only for d = 0 |
| ElevationConstraint.DampVersionsAgree | dem_downscaling_algorithm.py:779-780 | the loop and vectorized damping agree exactly when rsme > 0 or the correction is below 3 in size |
| ElevationConstraint.ExpectedInBlock | dem_downscaling_algorithm.py:663-727 | a sub-pixel of block (i, j) gets the correction of block (i, j) |
| ElevationConstraint.ProcessBlock | dem_downscaling_algorithm.py:665-725 | after one block every cell of that block holds its sub-pixel correction and all other cells are unchanged |
| ElevationConstraint.ElevationConstraintLoop | dem_downscaling_algorithm.py:654-727 | every cell of the loop result is the reference correction (loop damping): block mean of valid sub-pixels versus the coarse cell, 0 on masked cells and outside the blocks |
| ElevationConstraint.UnmaskedBlockCount | dem_downscaling_algorithm.py:754-756 | without a fine mask every block counts zoom² valid sub-pixels |
| ElevationConstraint.ElevationConstraintVectorized | dem_downscaling_algorithm.py:730-795 | the field has the fine grid's shape and is 0 on every fine nodata pixel |
| ElevationConstraint.VectorizedMeaning | dem_downscaling_algorithm.py:730-795 | every cell of the reshape/repeat version is the reference correction with vectorized damping |
| ElevationConstraint.VectorizedMatchesLoop | dem_downscaling_algorithm.py:730-795 | for rsme > 0 the vectorized version equals the loop's reference correction |
| ElevationConstraint.DampedStepCloser | dem_downscaling_algorithm.py:715-718 | after the damped step a difference d becomes 0.2·d or 0, so a non-zero difference strictly shrinks |
| ElevationConstraint.BlockMeanMovesCloser | dem_downscaling_algorithm.py:680-718 | with either engine's correction added, a block keeps its valid count and the difference between its coarse value and the mean of its valid sub-pixels becomes the old difference minus its damped step: unchanged under a nodata coarse cell, otherwise strictly smaller in size unless already zero |
| ElevationConstraint.InitializedGridNeedsNoCorrection | dem_downscaling_algorithm.py:333-350 | a freshly initialized grid needs no elevation correction anywhere |
| Downscale.DispatchSpatialDependence | dem_downscaling_algorithm.py:353-399 | the result is the field of the backend chosen by GPU request/availability, failure fallback and SciPy availability |
| Downscale.BackendsAgreeInside | dem_downscaling_algorithm.py:353-399 | in the interior, pixels with other than one valid neighbour get the same value from every backend |
| Downscale.DispatchElevationConstraint | dem_downscaling_algorithm.py:594-727 | the vectorized request returns the vectorized field; every cell equals the reference correction of the engine used |
| Downscale.NodataMask | dem_downscaling_algorithm.py:921-925 | with a nodata value, a coarse cell is masked exactly when it equals that value or is NaN; without one there is no mask |
| Downscale.ApplyNodata | dem_downscaling_algorithm.py:945-946 | masked pixels take the nodata value and every other pixel is unchanged |
| Downscale.ApplyNodataIdempotent | dem_downscaling_algorithm.py:978-980 | re-applying the nodata value changes nothing |
| Downscale.ScaleGeoTransform | dem_downscaling_algorithm.py:932-939 | entries 0, 2, 3, 4 kept; pixel sizes 1 and 5 divided by zoom |
| Downscale.ScaledRasterSameExtent | dem_downscaling_algorithm.py:932-939 | the downscaled raster covers the same extent as the input |
| Downscale.Step | dem_downscaling_algorithm.py:954-983 | one iteration's grid keeps the shape and the nodata pixels, and its energy is non-negative |
| Downscale.Next | dem_downscaling_algorithm.py:954-983 | one iteration keeps the grid shape and nodata pixels, energy is non-negative, the count grows by one and the energy change is old minus new |
| Downscale.Converge | dem_downscaling_algorithm.py:953-990 | the loop never lowers the iteration count; if it ran, the energy is non-negative and nodata pixels hold the nodata value |
| Downscale.ConvergeExit | dem_downscaling_algorithm.py:953 | the loop stops within the budget, and only because the change fell within the threshold or the budget ran out |
| Downscale.InitialState | dem_downscaling_algorithm.py:941-951 | the initialized grid with nodata pixels set, energies 1e11 and 1e8, no iteration |
| Downscale.Iterate | dem_downscaling_algorithm.py:954-983 | one pass of the while body is the next loop state |
| Downscale.ConvergenceLoop | dem_downscaling_algorithm.py:949-990 | the loop ends in the converged state; `Energy_new` is bound exactly when it ran, which is exactly when max_iterations > 0 and threshold < 1e8 |
| Downscale.DownscaleDem | dem_downscaling_algorithm.py:916-1013 | the written raster is the converged grid with the scaled geotransform, the projection and the nodata value (or -9999); the summary is an error exactly when max_iterations <= 0 or threshold >= 1e8, otherwise it reports 1..max iterations, non-negative energy, converged when stopped early; every fine pixel is the nodata value or lies under a valid coarse cell |
| Downscale.NodataAtExit | dem_downscaling_algorithm.py:997-999 | every fine pixel is the nodata value or under a coarse cell that is neither the nodata value nor NaN |
| Strings.ContainsAt | package_for_repository.py:133 | `p in s` holds exactly when p occurs at some offset of s |
| Strings.Strip | package_for_repository.py:70 | strip returns a slice of the input with only whitespace dropped at either end and none left there |
| Strings.ReplaceChar | package_for_repository.py:147 | `str.replace` of one character: same length, each occurrence of the character replaced and every other character kept |
| Strings.ReplaceCharRemoves | package_for_repository.py:147 | after replacing a character none is left and replacing again changes nothing |
| Packaging.ShouldExclude | package_for_repository.py:126-141 | the flag is set exactly when some pattern matches (suffix for `*` patterns, substring of name or relative path otherwise) and the file is not a documentation file |
| Packaging.DocFilesNeverExcluded | package_for_repository.py:137-141 | documentation files are never excluded |
| Packaging.CudaGuideKeptDespiteInstallPattern | package_for_repository.py:126-141 | `INSTALL.md` matches `CUDA_TOOLKIT_INSTALL.md`, yet that file is kept |
| Packaging.SuffixPatternsExclude | package_for_repository.py:128-132 | `.pyc` and `.tif` files are excluded by suffix |
| Packaging.KeepDirIsNoOccurrence | package_for_repository.py:107-111 | the `startswith` test is subsumed: a directory is pruned exactly when a de-starred pattern occurs in its name |
| Packaging.PruneDirs | package_for_repository.py:107-111 | the in-place pruning leaves exactly the kept directories, in order |
| Packaging.ToolDirsPruned | package_for_repository.py:107-111 | cache, `.git`, `.vscode` and `.idea` directories are pruned |
| Packaging.PathJoinMeaning | package_for_repository.py:147 | `os.path.join` (POSIX): the result ends with the second part; an absolute second part or an empty first part gives the second part alone; otherwise the result starts with the first part and at most one `/` is added, right before the second part |
| Packaging.ArcName | package_for_repository.py:147 | the entry name has no backslash |
| Packaging.ArcNameShape | package_for_repository.py:147 | the entry name ends with the relative path; for a non-empty name and a relative path it starts with the name and the path follows a `/` |
| Packaging.ArcNamePosix | package_for_repository.py:147 | with POSIX paths, a non-empty name not ending in `/` and a relative path, the entry name is `name/relative_path` |
| Packaging.ArcNameJoinEdges | package_for_repository.py:147 | an empty name or an absolute path gives the path alone; a name ending in `/` gets no second `/` |
| Packaging.WriteArchive | package_for_repository.py:103-150 | the included files are exactly the reference list, and the entries are their archive names |
| Packaging.WriteDirectory | package_for_repository.py:118-150 | one directory's packaged files and entries, in order |
| Packaging.IncludedFilesMeaning | package_for_repository.py:113-144 | a path is included exactly when some walked file with that path lies outside the output directory and is not excluded |
| Packaging.MissingFiles | package_for_repository.py:153 | a file is reported missing exactly when it is required and was not included |
| Packaging.ReadPluginName | package_for_repository.py:64-73 | the scan returns the reference plugin name |
| Packaging.PluginNameMeaning | package_for_repository.py:64-73 | no `name=` line gives the default; otherwise the first such line decides; the name has no spaces |
| Packaging.StripExample | package_for_repository.py:70 | the newline and trailing blank of a read line are stripped |
| Packaging.ZipFileName | package_for_repository.py:76-77 | the given file name, or the plugin name followed by `.zip` |
| MetadataUrls.JoinSplit | update_metadata_urls.py:23-34 | joining the split content gives it back |
| MetadataUrls.SplitJoin | update_metadata_urls.py:23-34 | splitting newline-free joined lines gives them back |
| MetadataUrls.RewriteLine | update_metadata_urls.py:25-31 | a `repository=` line becomes the repository URL of the user, otherwise a `tracker=` line becomes the issues URL, and any other line is kept |
| MetadataUrls.RewriteLineIdempotent | update_metadata_urls.py:25-31 | a rewritten line rewrites to itself and keeps its key |
| MetadataUrls.UpdateMetadataUrls | update_metadata_urls.py:10-36 | a missing file gives False and writes nothing; otherwise True and the rewritten content is written |
| MetadataUrls.RewriteLineByLine | update_metadata_urls.py:19-34 | line count preserved; `repository=`/`tracker=` lines carry the new URLs; all other lines unchanged in place |
| MetadataUrls.RewriteIdempotent | update_metadata_urls.py:26-31 | applying the update twice equals applying it once |
| MetadataUrls.RewriteWithoutKeys | update_metadata_urls.py:23-34 | content without either key is written back unchanged |

## Left out

- GDAL raster I/O (`open_raster`, `get_raster_band`, `get_raster_info`, `get_geo_transform`, `get_projection`, `create_raster`): foreign library. The grid, nodata value, geotransform and projection are inputs, and the written raster is an output value.
- CUDA/CuPy probing at import, PATH changes and all progress-callback messages: environment and cosmetic code. The capabilities are two booleans.
- Downscale.DownscaleDem: always writes the raster. The source binds `runtime_est` only when a progress callback is given (lines 858-880), yet reads it in the memory warning (line 910). With no callback and an estimate above 80% of the available memory (line 902) it raises `UnboundLocalError` before writing anything. Available memory (psutil) is not modelled, so neither is this failure.
- The GPU spatial kernel runs on a device. It is modelled as the rolled-sum computation, and whether it raises is an input (`gpuRaises`).
- Floating point: values are `real`. NaN detection is an input mask (`nanCells`). float32/float64 rounding and the MB divisions are exact.
- Downscale.DispatchElevationConstraint: requires exact block shapes for the vectorized engine. The numpy reshape of equal-sized grids with other shapes is not modelled.
- ElevationConstraint.ElevationConstraintLoop and Downscale.DispatchElevationConstraint: require every block to fit inside the fine grid (`BlocksFit`). The source then fails instead: an empty coarse grid divides by zero when the zoom is computed (line 658), and a coarse grid whose columns times the zoom exceed the fine columns indexes past the row (lines 674 and 691-693). These error paths are not modelled.
- Downscale.DownscaleDem: requires zoom > 0. The source divides by the zoom factor and fails otherwise.
- Downscale.DownscaleDem: the driver always asks for the vectorized engines, as the source does. The loop engines are reached only through the dispatchers.
- Strings.Strip: removes the ASCII characters Python's `strip` removes (including 0x1c-0x1f), but not the non-ASCII Unicode whitespace it also removes (such as U+0085, U+00A0, U+2028).
- Packaging.WriteArchive: the walk is given as its sequence of visited directories. The link between `PruneDirs` and the directories `os.walk` visits later is not modelled, nor is the ZIP compression.
- Packaging.ReadPluginName: the metadata file is given as its lines (None when absent). The file reading, the `ready_to_install` directory creation and the deletion of an older archive are not modelled.
- MetadataUrls.UpdateMetadataUrls: the file is given as its decoded content (None when absent), and the write is the returned content. The script reads and writes in text mode, so `\r\n` and a lone `\r` arrive as `\n` and the file is written with the platform's line ending; the claims hold for the decoded text, not for the bytes on disk. UTF-8 decoding is not modelled.
- Packaging.ArcName: models POSIX `os.path.join`. On Windows the join also treats `\` as a separator and handles drive letters, so a name ending in `\` gets no added `/`; that variant is not modelled.
- MetadataUrls.RewriteIdempotent: requires a user name without a newline. A name with one adds lines, and a second run could rewrite them.
- The Qt dialog, its worker thread, plugin lifecycle and the diagnostic scripts are not part of this model.
