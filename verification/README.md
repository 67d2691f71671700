# Robot-to-GPU link: verified model

A robot streams camera frames, LiDAR revolutions, inertial bursts, poses and an
occupancy grid to a GPU server; reconstructed clouds, map patches, verdicts and
target sightings come back. This Dafny project models the algorithms of that link
and proves what its design relies on. Check it with `dafny verify dfyconfig.toml`.

How the source's parts are modelled:

- Code that works by changing fields or arrays is a class or an in-place method whose
  contract ties the new state to a function of the old one; the lemmas are about that
  function, over whole runs, byte streams or patch sequences.
- Sockets, ports, threads and clocks become inputs of a step: what was read, whether a
  send was accepted, what time it is. The neural model may return or raise; an image
  stands for what the detector makes of it for each target.
- Arithmetic is over the integers and the reals; each sine/cosine pair is a point of
  the unit circle; `None` stands for NaN, infinities and missing readings. Bytes are
  `bv8`.
- `born` on keyframes and sightings, `blocks` on regions, `sent`/`replied` in the frame
  protocol, and the `ghost` fields are history the model adds so that properties can
  speak of where something came from.

Files: `Crc`, `Framing`, `SerialSources`, `Revolution`, `Scans` (the two serial readers);
`FrameQueues`, `Links`, `Sessions`, `ClientWindows` (flow control); `Announcements`; `Rasters`,
`Occupancy`, `Transforms`, `Compare`, `Shift` (the map loop); `Components`, `Regions`,
`Extraction`, `Sorting` (regions); `Epochs`, `Decision`, `Deep3r`, `Absences`,
`CloudReduction` (the processor); `Seek`, `Lidar`; `Rounding`, `Wrappers`.

Main results:

- Both serial readers are independent of how the stream is split into reads, yield
  exactly the greedy choice of valid windows, and with them every good packet; the
  table-driven CRC is polynomial division and no one-byte error passes.
- A client's window is at every reachable state the disjoint union of the frames on the
  way, each frame is answered exactly once, and progress never stops, exactly in the
  configurations with one session, a queue that refuses arrivals, or a queue that holds
  every window at once. Elsewhere a run that loses a frame is built, and a session that
  lost its whole window is stuck for ever.
- Flood fill returns exactly the classes of 4-connectivity; cells are conserved from
  mask to regions; the region with structure always has a height.
- Merging a comparison's patch reaches a fixed point exactly when the painted value
  counts as occupied.
- No target is announced from another run's data, as long as frames name their run, and
  every target announced is a detection over the confidence floor at the place of its hit.
- What is open in a client's windows, what a session sends and when a map starts over are
  each told exactly from the events before, over every run.
- Decoding a packet inverts its encoding; a camera's quaternion turns as q v q* does.
- Reconstruction epochs, the widest gap on the circle, the coverage window, announcement
  streams, cloud thinning and packing, rigid and grid round trips.

Where the code and its prose differ, the code is modelled and the exact condition stated:
`Sessions.AccountedIffSafe` (a reply to an evicted frame goes to the arriving session),
`ClientWindows.FirstUploadIsTheLast` (a reconnect does not clear the map window),
`Occupancy.ReplaceRestoresIff` and `MaxRestoresIff` (a diff patch under either merge),
`Epochs.JumpsBoundedIff` (a gap on a skipped frame is forgotten),
`Epochs.FirstResultUnmarkedIff`, `Absences.AbsencesRestOnTheirRunIff` (absences are counted
across runs), `Decision.AnnouncesOtherMapIff` (a fresh recall is not checked against the map),
`Deep3r.UnnamedFrameLeaks`, `Seek.KeyframeFloor` (`min_keep` is never consulted),
`Seek.StallWindowReachableIff`.

The methods of the classes `Client`, `Seeker` and `Reconstruction` are each proved to take
the step their specification function describes; the rows below name the lemmas about
those functions.

## Model

| member | source | states |
|---|---|---|
| Crc.Crc8Table | link/robocam_client.py:1053-1071 | the table holds, for every byte, eight shift-and-reduce steps by the polynomial |
| Crc.Crc8 | link/robocam_client.py:1074-1087 | the table-driven loop returns the checksum defined by long division of the message, whatever the polynomial |
| Crc.RegisterIsChecksum | link/robocam_client.py:1053-1087 | for every byte string the loop's running value is the remainder of bit-by-bit polynomial division |
| Crc.PassesIffDivisible | link/robocam_client.py:1029-1044 | a packet passes its check exactly when the whole packet, as a polynomial, is divisible |
| Crc.StepInjectiveIffOdd | link/robocam_client.py:1053-1071 | a table step loses nothing exactly when the polynomial has a constant term, as both used here do |
| Crc.SingleByteErrorDetected | link/robocam_client.py:1074-1087 | two packets of one length that differ in exactly one byte never both pass |
| Framing.FramesAreWindows | link/robocam_client.py:991-1027 | every yielded frame is a window of the stream at an offset, in order, that starts with the magic and was accepted |
| Framing.ScanResumes | link/robocam_client.py:941-943 | scanning again after more bytes arrived gives what scanning the longer stream from the start gives |
| Framing.ChunkingIrrelevant | link/robocam_client.py:930-943 | any split of a stream into reads yields the same frames, counters and left-over bytes as reading it whole |
| Framing.ScanIsGreedy | link/robocam_client.py:991-1027 | unless the reader gives up on the CRC on the way, yielded windows are disjoint, ordered and valid for its mode (any magic with the check off), and a valid window is lost only if an earlier yielded one covers its first byte |
| Framing.CheckingStaysOff | link/robocam_client.py:1029-1044 | once a reader has given up on the CRC it never checks again |
| Framing.GivesUpAtTheThreshold | link/robocam_client.py:1029-1044 | a scan that stops checking is in the mode that may, with at least fifty failures outnumbering successes more than four to one, and counts no further |
| Framing.CountersCount | link/robocam_client.py:1005-1044 | the counters of any scan: one packet for every frame yielded, one success while checking, one failure for every window refused, and no giving up before fifty failures |
| Framing.GivingUpSplitsTheStream | link/robocam_client.py:1029-1044 | a reader that gives up does so at that threshold and at one point: up to there its frames are the greedy choice of checked windows, from there on of all windows |
| Framing.GreedyUnique | link/robocam_client.py:991-1027 | that description determines the yielded windows |
| Framing.GoodPacketsSurvive | link/robocam_client.py:1736-1769 | in every mode, a magic-free prefix and then back-to-back good packets are framed as exactly those packets |
| SerialSources.FindMagic | link/robocam_client.py:991-1004 | the index of the first magic in the buffer, or -1 exactly when there is none |
| SerialSources.Align | link/robocam_client.py:991-1010 | trimming to the first magic (or the last byte) is what the scan of the stream does, and stops exactly when no whole packet is there |
| SerialSources.SerialLdsSource.CheckCrc | link/robocam_client.py:1029-1044 | accepts exactly packets whose CRC matches; counts both outcomes; in auto mode gives up after 50 failures outnumbering successes four to one |
| SerialSources.SerialLdsSource.Packets | link/robocam_client.py:991-1027 | draining the buffer continues the scan of the whole stream from where it stood |
| SerialSources.SerialLdsSource.Feed | link/robocam_client.py:930-943 | after every read all state is that of one scan over all bytes so far, and less than a packet is held |
| SerialSources.Judge | link/robocam_client.py:1751-1765 | rejects on the CRC first, then on implausible readings, and accepts exactly what passes both |
| SerialSources.SerialOpenCRSource.Frames | link/robocam_client.py:1736-1769 | draining the buffer continues the scan of the whole stream from where it stood |
| SerialSources.SerialOpenCRSource.Feed | link/robocam_client.py:1719-1734 | with reads of at most 512 bytes the buffer bound is never reached, so no byte is discarded, and the state is that of one scan |
| SerialSources.DecodeReadsTheFields | link/robocam_client.py:1016-1027 | each field of a decoded packet from its bytes, low byte first: start angle, distances, intensities, and the first and last angle |
| SerialSources.DecodeInvertsEncoding | link/robocam_client.py:1016-1027 | decoding gives back what a sensor wrote: the start angle, every distance and intensity, and twelve angles spaced evenly from the start angle on to the end angle, modulo a turn |
| SerialSources.ImuReadsTheFloats | link/robocam_client.py:1757-1758 | the channels of a frame are, after the telemetry and the power readings, the numbers that IEEE 754 gives the sign, exponent and fraction in their four bytes, low byte first |
| SerialSources.KnownFloats | link/robocam_client.py:1757-1758 | the bytes of one, minus two, a half and a NaN, read so |
| SerialSources.OpenCrAcceptsIff | link/robocam_client.py:1778-1793 | while it checks, a frame is accepted exactly when its checksum passes, all channels are numbers, the three rates are within 100 and the three accelerations within 200 |
| SerialSources.LdsPacketsSurvive | link/robocam_client.py:991-1044 | in every CRC mode, LDS packets that pass, back to back after a magic-free prefix, are exactly what is yielded |
| SerialSources.CorruptPacketRejected | link/robocam_client.py:1029-1044 | neither reader accepts a window one byte away from a good packet while it checks |
| Revolution.TableIsMinimum | link/robocam_client.py:963-975 | each bin holds the least nonzero distance that fell in it, with the intensity of the first point at that distance, and zero exactly when none fell in |
| Revolution.BinIsClosest | link/robocam_client.py:963-970 | a point falls into the bin whose bearing, of as many spread evenly over the turn, is closest to its angle |
| Revolution.GroupsPartition | link/robocam_client.py:943-961 | the revolutions and the open one together are the packets, none lost, repeated or moved |
| Revolution.GroupsCutAtWraps | link/robocam_client.py:943-961 | revolutions are cut exactly where a start angle falls below the one before |
| Revolution.Assembler.AddPoint | link/robocam_client.py:963-975 | one point enters the bins and the count of filled bins stays the number of nonempty ones |
| Revolution.DenseIsAQuarter | link/robocam_client.py:947 | a revolution goes out exactly when four times its filled bins exceed the bins less four |
| Revolution.Assembler.CloseRevolution | link/robocam_client.py:946-960 | a reading goes out exactly when a quarter of the bins are filled, and the bins are empty after either way |
| Revolution.Assembler.Packet | link/robocam_client.py:943-975 | after each packet the bins hold the current revolution's points alone and one reading went out per dense closed revolution |
| Revolution.NothingLeaks | link/robocam_client.py:946-961 | after a wrap the bins are those of the new packet alone |
| Scans.LdsScanner.Read | link/robocam_client.py:924-975 | after every read the assembler has taken exactly the decoded packets framed in all bytes so far |
| Scans.LdsScanner.ReadingsFollowTheBytes | link/robocam_client.py:924-975 | the revolutions out are a function of the bytes read, however they were split into reads |
| FrameQueues.PutConserves | robocam/pipeline.py:62-80 | a put neither loses nor duplicates a frame: waiting plus arriving is waiting plus evicted |
| FrameQueues.FrameQueue.Enqueue | robocam/pipeline.py:62-80 | under either policy the new queue and the evicted frame, the bound kept, drops counted; a closed queue hands the frame back uncounted |
| FrameQueues.FrameQueue.Get | robocam/pipeline.py:82-89 | pops the oldest frame, also from a closed queue |
| FrameQueues.FrameQueue.Close | robocam/pipeline.py:91-94 | closing keeps what waits |
| FrameQueues.FrameQueue.Drain | robocam/pipeline.py:96-100 | returns everything waiting, in order, and leaves the queue empty |
| Links.FrameServer.OnFrame | robocam/server.py:748-836 | an undecodable frame is answered at once; a decoded one is queued and every evicted frame answered, to the arriving frame's session |
| Links.FrameServer.WorkOne | robocam/pipeline.py:172-207 | a worker's turn moves the oldest frame to the results, whether its processor returned or raised |
| Links.FrameServer.FlushResults | robocam/server.py:1424-1431 | everything finished is answered, oldest first |
| Links.EvictionReplyNames | robocam/server.py:833-836 | replies to evicted frames name those frames exactly when they belong to the arriving session |
| Links.ArriveKeepsIff | robocam/server.py:833-836 | an arrival keeps windows and frames in account exactly when it evicts only its own session's frames |
| Links.StepKeeps | robocam/pipeline.py:172-207 | every step of the protocol, the evicting arrivals above excepted, keeps the account, the bounds and one answer per frame |
| Sessions.SafeEvictsOwn | robocam/server.py:833-836 | with one session, a queue that refuses arrivals, or one that holds every window at once, every eviction is of the arriving session |
| Sessions.EveryStateAccounted | link/robocam_client.py:2805-2809 | in those configurations, at every reachable state the windows are the disjoint union of all frames under way and replies undelivered, and within their limits |
| Sessions.UnsafeBreaks | robocam/pipeline.py:62-80 | every other configuration has a run that loses a frame: it was sent, is nowhere any more, and was never answered |
| Sessions.AccountedIffSafe | robocam/server.py:833-836 | every reachable state of a configuration keeps the account exactly in those cases |
| Links.ExactlyOneReply | robocam/server.py:1587-1593 | a frame sent is in flight and unanswered, or not in flight and answered exactly once |
| Links.NoStrayReply | robocam/server.py:1433-1480 | nothing is answered that was not sent |
| Links.StepsArePaid | robocam/pipeline.py:172-207 | every step but a send lowers what is owed, so only finitely many happen between sends |
| Links.NeverStuck | robocam/pipeline.py:172-207 | while a window is not empty some step other than a send can be taken |
| Links.StrandedForEver | robocam/server.py:833-836 | over every run, a session whose whole window of frames vanished unanswered never sends or is answered again |
| Links.CrossSessionEvictionStrands | robocam/server.py:833-836 | a run of two sessions that ends so, the other session being answered for a frame it never sent |
| ClientWindows.StepKeeps | link/robocam_client.py:2669-3369 | no event, a reconnect, a reply or a refused send included, overruns a window or puts a second grid in flight |
| ClientWindows.OpenIffAwaited | link/robocam_client.py:3235-3369 | over every sequence of events, a number is open exactly when it was sent and since then neither answered nor forgotten by a reconnect |
| ClientWindows.AnsweredClientSends | link/robocam_client.py:2805-2985 | a client whose messages were all answered or forgotten sends the next one wanted, under the next number |
| ClientWindows.LaterIsHigher | link/robocam_client.py:2805-2985 | what a stream sends later has a higher number, so none is sent twice, reconnects included |
| ClientWindows.WantedIffAskedFor | link/robocam_client.py:3154-3369 | a stream is wanted exactly when the last welcome asked for it and no reply since switched it off |
| ClientWindows.GridOpenIffAwaited | link/robocam_client.py:2963-3000 | a grid is in flight exactly when it was uploaded and not answered since: a reconnect forgets none |
| ClientWindows.WindowsNeverOverrun | link/robocam_client.py:2805-2809 | over every sequence of events no window exceeds its limit and at most one grid is in flight |
| ClientWindows.LostMapReplyBlocksUploads | link/robocam_client.py:2984-2987 | once a map reply is lost no grid is ever uploaded again, reconnects included |
| ClientWindows.FirstUploadIsTheLast | link/robocam_client.py:2678-2706 | from the start: a grid whose reply is lost to a reconnect is the only one ever uploaded |
| ClientWindows.LostOdomRepliesBlockPoses | link/robocam_client.py:2678-2680 | once as many pose replies as the window holds are lost no pose is ever sent again, reconnects included |
| ClientWindows.ReconnectUnblocks | link/robocam_client.py:2678-2706 | right after a reconnect the three cleared streams have room whatever was lost; poses and the map exactly if they had it before |
| Announcements.Session.SendUpdate | robocam/server.py:1510-1528 | a map update goes out, numbered and stamped, exactly when switched on, of the held map, not too soon and big enough |
| Announcements.Session.SendHint | robocam/server.py:1530-1546 | a pose hint goes out exactly when switched on, of the held map and not too soon |
| Announcements.Session.SendAgreement | robocam/server.py:1548-1562 | a verdict goes out exactly when switched on, of the held map and not too soon |
| Announcements.Session.SendFound | robocam/server.py:1564-1577 | a found always goes out with the next number |
| Announcements.Session.SendAnnouncements | robocam/server.py:1482-1585 | a frame's announcements are taken in order, each on the state the ones before left |
| Announcements.Session.SendResult | robocam/server.py:1433-1480 | what a finished frame adds is its announcements and then its result |
| Announcements.AnnounceKeeps | robocam/server.py:1507-1585 | sent or suppressed, one announcement keeps numbering, spacing and map identity |
| Announcements.StreamsKeepTheirPromises | robocam/server.py:1482-1585 | over a session's life, with a positive nondecreasing clock, every stream is numbered 0, 1, 2, ...; updates, hints and verdicts keep their intervals and name the map held |
| Announcements.SentIffDue | robocam/server.py:1507-1585 | over a session's life, a message goes out exactly when its own switch is on, it is of the last grid received, the interval of its own stream has passed since the last of it in the log, and an update has enough cells |
| Announcements.AnnouncementsPrecedeTheResult | robocam/server.py:1440-1444 | a frame's log entries are announcements of that moment and last its one result |
| Occupancy.ApplyPatch | robocam/occupancy.py:292-338 | the grid becomes the merge of every covered cell, whatever the offset; the count is exactly the changed cells; an unknown mode is refused and changes nothing |
| Occupancy.MergeMapPatch | link/robocam_client.py:2468-2501 | the client computes the same grid and the same count |
| Occupancy.MergedAllIsTop | robocam/occupancy.py:325-333 | after max-merging any patches a cell is the largest of its old value and every known value a patch had for it |
| Occupancy.MergeOrderIrrelevant | robocam/occupancy.py:292-338 | the merged grid depends on which patches came, not on order or repetition |
| Occupancy.MergeOnlyAdds | robocam/occupancy.py:292-338 | no sequence of patches lowers a cell or makes an observed one unknown |
| Occupancy.ReplaceRestoresIff | robocam/occupancy.py:349-353 | replacing with the patch of a difference restores the updated grid exactly when its box covers no unchanged known cell |
| Occupancy.CellBetweenChangesIsLost | robocam/occupancy.py:368-370 | a known unchanged cell between two changes of a row always makes such a patch, and becomes unknown |
| Occupancy.FreeCellLost | robocam/occupancy.py:368-370 | a grid whose patch loses a free cell that way |
| Occupancy.MaxRestoresIff | robocam/occupancy.py:349-370 | merging it by maximum restores the updated grid exactly when no change lowers a cell or makes it unknown |
| Occupancy.PatchIsSmallest | robocam/occupancy.py:341-384 | no patch exactly when nothing differs; otherwise it carries every difference, unknown elsewhere, and each side of its box touches one |
| Transforms.MountIsRigid | robocam/compare.py:109-123 | the mount's matrix is a rotation and a translation for every roll, pitch and yaw |
| Transforms.MountIsYawPitchRoll | robocam/compare.py:109-123 | the written-out rotation acts as roll, then pitch, then yaw |
| Transforms.LevelMountAxes | robocam/compare.py:109-123 | a level mount sends the optical axes to the body axes: z forward, x to the right, y down |
| Transforms.PositivePitchLooksDown | robocam/compare.py:109-123 | a positive pitch lowers what is straight ahead |
| Transforms.InverseIffRigid | robocam/compare.py:150-161 | the cheap inverse undoes a transform on every point, both ways round, exactly when its rotation part is orthonormal |
| Transforms.QuaternionIsOrthonormal | robocam/odometry.py:217-222 | the matrix of every unit quaternion is orthonormal |
| Transforms.QuaternionTurns | robocam/odometry.py:217-222 | the matrix of every unit quaternion q takes every vector v to q v q* |
| Transforms.HalfAngleTurns | robocam/odometry.py:217-222 | half an angle about an axis gives the rotation about that axis by the whole angle, for all three axes |
| Transforms.DecodedCameraIsRigid | robocam/odometry.py:225-265 | whatever quaternion is sent, a camera block that is accepted is a rigid transform at the given offset |
| Transforms.DecodedCameraTurns | robocam/odometry.py:225-265 | an accepted camera turns every vector as the quaternion sent does, brought to length one |
| Transforms.CameraRefusedIff | robocam/odometry.py:225-265 | a block is refused exactly for another base, an offset over two metres, or a quaternion shorter than a millionth, in that order |
| Transforms.MapFromCloudIsRigid | robocam/compare.py:164-189 | the composed transform is rigid for either source of the camera pose |
| Transforms.CloudRoundTrip | robocam/compare.py:232-261 | cloud to map and back, and map to cloud and back, return the point |
| Transforms.CameraCentreLandsOnTheRobot | robocam/compare.py:164-189 | the model's camera centre lands at the robot's pose plus the turned mount offset |
| Transforms.SeenPointLands | robocam/compare.py:164-189 | what the camera sees at a point, wherever the model put it, lands where the robot's pose puts what its camera sees there, for either source of the camera pose |
| Transforms.CellRoundTrip | robocam/occupancy.py:109-139 | the centre of every cell, in or out of bounds, falls in that cell, for every grid yaw |
| Transforms.PointFallsInItsSquare | robocam/occupancy.py:109-129 | any point of the plane falls in the cell its coordinates along the grid's axes round down to |
| Transforms.CellCentresAreTurned | robocam/occupancy.py:131-139 | cell centres lie along axes turned by the grid's yaw about its origin |
| Compare.OccupancyFromCloud | robocam/compare.py:264-316 | a cell is set exactly when at least the required number of points inside the height slice fall in it |
| Compare.HitsCountPoints | robocam/compare.py:264-316 | the count behind it is of the points inside the slice that fall in the cell |
| Compare.CompareCloud | robocam/compare.py:393-503 | frames that differ are refused; the counts add up to both sides' cells; a patch is the diff that paints the news, and none is made under the threshold |
| Compare.MergeWritesTheNews | robocam/compare.py:478-497 | merging the answer raises exactly the new cells and changes no other, whatever the configured value |
| Compare.MergeReachesTheUnion | robocam/compare.py:455-497 | after the merge the occupied cells are the old ones and the cloud's exactly when the painted value reaches the grid's threshold |
| Compare.ComparisonReachesAFixedPoint | robocam/compare.py:455-497 | then comparing the same cloud again finds no news and makes no patch |
| Compare.NewsStaysBelowTheThreshold | robocam/compare.py:455-497 | with a value under the threshold exactly the same new cells are found after every merge |
| Shift.BestOffset | robocam/compare.py:357-374 | the best offset over the whole search square, staying put before ties and the first in search order before later ones |
| Shift.EstimateShift | robocam/compare.py:319-390 | an offer exactly when the best offset is not zero, has enough inliers and enough gain; nothing without cells on both sides |
| Shift.ScoreAtMostCloud | robocam/compare.py:380-390 | no offset scores more than the cloud has cells, so the confidence is at most one without its clamp |
| Shift.ScoreCountsTheMoved | robocam/compare.py:355-360 | an offset scores the cells of the cloud that moving the cloud by it puts on occupied cells |
| Components.Flood | robocam/regions.py:191-206 | breadth-first search from an unseen true block returns its whole component, each block once, marking exactly those as seen |
| Components.FindComponents | robocam/regions.py:180-207 | every true block is in exactly one component, each grown by adjacency and closed under it; components are led by their first block and come in row-major order of those |
| Components.ComponentIsConnected | robocam/regions.py:180-207 | any two blocks of a component are joined by a path inside it |
| Components.ComponentsAreClasses | robocam/regions.py:180-207 | two true blocks share a component exactly when a path of true blocks joins them |
| Components.AdjacentIsOneStep | robocam/regions.py:180-207 | blocks are adjacent exactly when they are one step apart along one axis |
| Regions.KindsAreDisjoint | robocam/regions.py:149-177 | no cell is of two kinds, and a cell is of none exactly when both sides call it occupied, neither knows it, or the map observed it as neither free nor occupied |
| Regions.KindIsByValue | robocam/regions.py:149-177 | each kind on its own, from the cell's value, the two thresholds and the cloud's bit |
| Regions.PoolCounts | robocam/regions.py:210-218 | a pooled count over the padded mask is the number of set cells of its block |
| Regions.PoolConservesCells | robocam/regions.py:210-218 | all pooled counts together are the population of the mask |
| Regions.CellHeights | robocam/regions.py:63-103 | every cell's height is the highest sliced point that falls in it, None exactly when there is none |
| Regions.OccupiedCellHasHeight | robocam/regions.py:77-79 | a cell the cloud calls occupied has a height inside the slice |
| Regions.TopOfTopsCells | robocam/regions.py:221-237 | pooling and taking the maximum over blocks gives the greatest height of any of their cells |
| Extraction.FindRegions | robocam/regions.py:273-314 | the regions of one kind partition its blocks, each with its exact cell count and greatest height |
| Extraction.RegionCountsByValue | robocam/regions.py:164-170 | a region of a kind counts exactly the cells in its blocks whose value and cloud bit are of that kind, and each of its blocks holds enough of them |
| Extraction.BlockSizeIsClosest | robocam/regions.py:267 | a block is as many cells as come closest to the length asked for, at least one |
| Extraction.CellsAreConserved | robocam/regions.py:273-283 | before the cut, the cells of a kind's regions are exactly that kind's cells in blocks that hold enough |
| Extraction.Score | robocam/regions.py:319-326 | each score is the rounded share of the largest region of the same kind |
| Extraction.ExtractRegions | robocam/regions.py:240-329 | the list is the prefix of the regions of all kinds, at the block size the resolution gives, in stable order of score, then cells, then kind, then first block; without heights none is measurable |
| Extraction.EveryKindSurvives | robocam/regions.py:319-329 | while no more regions score 1 than fit, the largest region of every kind is in the list |
| Extraction.FirstIsLargest | robocam/regions.py:323-328 | the first region of a kind in the order is its largest |
| Extraction.KindSurvivesIff | robocam/regions.py:328-329 | a kind is in the list exactly when fewer regions than fit come before its first |
| Extraction.StructureHasHeight | robocam/regions.py:304-305 | a region with structure has a height: that of the highest sliced point anywhere in its blocks |
| Sorting.RankingIsStableSort | robocam/regions.py:328 | the order lists every item once, greatest key first, ties as they came |
| Lidar.LongestClear | robocam/lidar.py:354-371 | two laps find the first longest cyclic run of clear beams, across the array end included |
| Lidar.WidestFree | robocam/lidar.py:323-378 | the width is the share of the turn the first longest run has, the bearing that of its middle beam, as many beams before as after, and None exactly when it is narrower than required |
| Lidar.CentreIsClear | robocam/lidar.py:377-378 | the beam reported is clear |
| Seek.CoverageTracker.Observe | robocam/seek.py:774-781 | what is held is the history from the last sample older than the window on, at least two of it |
| Seek.CoverageTracker.RateCellsPerS | robocam/seek.py:783-790 | the gain over the held span, None exactly under one second of it |
| Seek.CoverageTracker.SpanS | robocam/seek.py:792-795 | the time from the start of the window to the newest sample |
| Seek.WindowStartUnique | robocam/seek.py:774-781 | what is held is a function of the history |
| Seek.SpanBounds | robocam/seek.py:774-795 | with gaps of at most g the span lies between the smaller of elapsed time and window, and window plus g |
| Seek.StallWindowUnreachable | robocam/seek.py:885-889 | a stall window above that can never be met |
| Seek.StallWindowReached | robocam/seek.py:885-889 | a stall window within the tracker's is met once that time has passed |
| Seek.StallWindowReachableIff | robocam/seek.py:774-795 | with gaps of at most g a stall window can be met by some history exactly when it is no longer than the window plus g |
| Seek.T1ExitCriteria | robocam/seek.py:820-923 | ready exactly when nothing blocks, which is exactly when all five tests pass; each reason given is a test that fails in the way it says |
| Seek.ReadyMeans | robocam/seek.py:858-923 | no reason is given exactly when enough of the grid is observed, few enough wide exits are open, coverage was measured long enough and has stalled, and agreement, frames and runtime suffice |
| Seek.TargetMemory.Remember | robocam/seek.py:716-732 | a sighting is stored exactly when the slot is empty, of another target, no more confident, or old enough |
| Seek.StoredIff | robocam/seek.py:716-732 | the slot is taken exactly when empty, of another target, no more confident, or twenty seconds older |
| Seek.TargetMemory.Recall | robocam/seek.py:734-751 | the held sighting, if it is of this target, of no other known map, and not too old |
| Seek.RecalledIff | robocam/seek.py:734-751 | what is held is given out exactly when of this target, of no other known map, and within its lifetime |
| Seek.SlotHoldsTheLastTarget | robocam/seek.py:716-732 | after any sightings the slot is of the last one's target and holds it or a more confident one |
| Seek.KeyframeStore.Add | robocam/seek.py:667-679 | the newest frames up to the ceiling are held, evictions counted |
| Seek.KeyframeStore.NewestFirst | robocam/seek.py:681-684 | the held frames in reverse order of keeping |
| Seek.KeyframeFloor | robocam/seek.py:636-648 | the promised floor holds in every run exactly when it is no higher than the ceiling |
| Epochs.Reconstruction.NewRun | robocam/processors/deep3r.py:443-474 | a new run starts the map over and forgets the last sequence number |
| Epochs.Reconstruction.Process | robocam/processors/deep3r.py:505-583 | one frame does what the step function says: wipe, gap, stride, reset, model, count |
| Epochs.MapIdOnlyGrows | robocam/processors/deep3r.py:1028-1031 | `map_id` never decreases and stays exactly while nothing starts over, also when the model raises |
| Epochs.SameMapIffNoReset | robocam/processors/deep3r.py:505-583 | two results name one map exactly when nothing started over between them |
| Epochs.StartsOverIff | robocam/processors/deep3r.py:505-540 | over every run, a frame starts the map over exactly when it names a new run, or is one of every n and there is no state, a jump in the sequence numbers, or a spent budget, all told from the frames and outcomes before it |
| Epochs.ResultCarriesTheGap | robocam/processors/deep3r.py:521-524 | a result carries the gap of its frame to the one before, none across runs |
| Epochs.ResultsAreNumbered | robocam/processors/deep3r.py:570-573 | the results of a map are numbered 1, 2, 3, ..., shifted by one for each frame that raised after it was counted |
| Epochs.MapsStayInBudget | robocam/processors/deep3r.py:539-540 | with a frame budget no map has more results, and frames lost after being counted, than it |
| Epochs.FirstResultUnmarkedIff | robocam/processors/deep3r.py:533-575 | for every run and configuration, the first result of a map is unmarked exactly when the frame that started the map over raised once the new state existed, and no later result is marked |
| Epochs.AlwaysMarkedIff | robocam/processors/deep3r.py:1131-1144 | a configuration marks the first result of every map in every run exactly when its budget is negative |
| Epochs.JumpsBoundedIff | robocam/processors/deep3r.py:521-540 | while the model returns, results of one map stay within the configured gap in every run exactly when no frame is skipped or no map can hold two results |
| Epochs.DefaultGapIsForgotten | robocam/processors/deep3r.py:223 | with the default gap every stride above one has a run that forgets it |
| Decision.Seeker.RunRecall | robocam/processors/deep3r.py:673-711 | the budgeted loop does what the recursive search does |
| Decision.Seeker.Run | robocam/processors/deep3r.py:713-795 | one frame's decision: keep, arm, look, search back, choose, announce |
| Decision.LiveHitIsTaken | robocam/processors/deep3r.py:811-827 | the live search gives the first hit with a place if no hit up to it is under the floor, and nothing otherwise |
| Decision.RecallHitIsTaken | robocam/processors/deep3r.py:690-706 | a keyframe is taken at the first hit over the floor with a place |
| Decision.KeyframeShows | robocam/processors/deep3r.py:690-711 | what a keyframe shows is the hit taken at it, with its place, of the map and moment it was kept |
| Decision.KnownIs | robocam/processors/deep3r.py:777-789 | what a frame knows is the hit taken on it, with its place; failing that what the answering keyframe shows; failing that what is remembered and still good |
| Decision.FoundIff | robocam/processors/deep3r.py:873-911 | for every state and frame, a target is announced exactly when the frame looks for one, that is what it knows, and it is not within the interval, near the last announced and on the same basis |
| Decision.AtMostOne | robocam/processors/deep3r.py:836-911 | a frame announces one thing at most; an absence names its target and map, a found says whether it was seen on the frame itself |
| Decision.SearchIsForTheTarget | robocam/processors/deep3r.py:653-711 | a looking frame goes on with the search of the frame before for the same target, and else queues every keyframe held, newest first |
| Decision.ExploringKeepsIff | robocam/processors/deep3r.py:619-651 | an exploring frame is kept exactly when keyframes are, it could be resized, and it is the first of its run or the camera moved |
| Decision.RecallTakesTheFirst | robocam/processors/deep3r.py:673-711 | the search answers with the first queued keyframe that shows the target |
| Decision.RecallSearchesTheBudget | robocam/processors/deep3r.py:673-711 | without an answer everything within the budget was searched and the rest stays queued in order |
| Decision.RecallTakesTheNewest | robocam/processors/deep3r.py:653-711 | a target named at the start of the second scan is answered by the newest keyframe that shows it |
| Decision.OtherMapIffKeyframeAnswers | robocam/processors/deep3r.py:777-789 | what is chosen is of another map than the grid exactly when, in the state before the frame, nothing is seen on the frame and the queued keyframe that will answer within the budget was kept under another map |
| Decision.AnnouncesOtherMapIff | robocam/processors/deep3r.py:713-795 | a frame announces a target of another map exactly when it looks for one, sees none itself, and such a keyframe answers and is worth a message |
| Decision.FreshRecallIsAnnounced | robocam/processors/deep3r.py:777-791 | what the newest keyframe shows is announced when the second scan begins, whatever map it is of |
| Decision.AbsentIff | robocam/processors/deep3r.py:836-872 | for every state and frame, an absence is announced exactly when the frame looks for a target, nothing is seen, no keyframe answers, nothing is remembered, and the fruitless looks counted, this one included, reach the configured number |
| Decision.AbsentTally | robocam/processors/deep3r.py:797-872 | the count after a frame: ended by a live sighting or an announced absence, raised by a look that finds nothing, kept otherwise |
| Decision.DecideDerives | robocam/processors/deep3r.py:713-795 | nothing enters the state or an announcement but what the state and this frame were derived from |
| Deep3r.Processor.Process | robocam/processors/deep3r.py:505-596 | one frame of the whole processor: wipe, reconstruct, and decide only on a cloud |
| Deep3r.NothingOutlivesItsRun | robocam/processors/deep3r.py:505-519 | before every frame all that is kept, queued or remembered comes from frames with no change of run since |
| Deep3r.RunIsolation | robocam/processors/deep3r.py:443-519 | a target announced was derived from a frame of the same run, with no other run named between, over any interleaving |
| Deep3r.FoundIsADetection | robocam/processors/deep3r.py:673-834 | over every session, whatever is announced is a detection of the target asked for on the frame it names or the copy kept of it, at the place of the hit to be taken there, no weaker than the configured confidence; what is called live was seen on the very frame |
| Deep3r.NothingIsInvented | robocam/processors/deep3r.py:619-834 | at every point of a session all keyframes are copies of its frames and all sightings such detections |
| Deep3r.NoRepeats | robocam/processors/deep3r.py:873-884 | of two announcements on end, with no absence and no change of run between, the second comes an interval later, is far enough away, or has another basis |
| Deep3r.UnnamedFrameLeaks | robocam/processors/deep3r.py:513-519 | a frame that names no run is outside that: its keyframe is announced in the run named next |
| Deep3r.MapChangeIsIgnored | robocam/processors/deep3r.py:787-788 | in one run whose grid changes map between two frames, the second announces a target of the map before |
| Deep3r.SuchFramesExist | robocam/processors/deep3r.py:619-711 | frames as in the two rows above exist for every target, place, pair of runs and pair of maps |
| Absences.CounterIsTheTally | robocam/processors/deep3r.py:463-472 | over every session the counter is the number of fruitless looks since the last live sighting or announced absence, runs notwithstanding |
| Absences.AbsenceIff | robocam/processors/deep3r.py:836-872 | a frame of a session announces an absence exactly when it looks, nothing is known, and that tally with this look reaches the number |
| Absences.FollowsTheSession | robocam/processors/deep3r.py:505-596 | the tally is kept beside the session's own states |
| Absences.ManyLooksCross | robocam/processors/deep3r.py:463-472 | with a number of two or more, a session announces an absence after one look of its run, whatever the strides |
| Absences.OneLookCrosses | robocam/processors/deep3r.py:463-472 | with a number of one, a look withheld by the memory or a keyframe makes the next run announce an absence without a look |
| Absences.AbsencesRestOnTheirRunIff | robocam/processors/deep3r.py:443-474 | every absence of every session rests on that many looks of its own run exactly in the configurations that announce none, ask for none, or ask for one and can withhold nothing |
| Absences.TwoRunsOneAbsence | robocam/processors/deep3r.py:463-472 | one look in one run and one in the next are announced as an absence of two |
| CloudReduction.GateKeepsExactly | robocam/processors/deep3r.py:1176-1180 | exactly the finite points over the threshold pass |
| CloudReduction.VoxelIsCube | robocam/processors/deep3r.py:1267 | a voxel is the half-open cube of the configured side at its index |
| CloudReduction.DownsampleKeepsTheBest | robocam/processors/deep3r.py:1260-1278 | one point per voxel, each input point's voxel represented by one at least as confident, for every order the sort may return |
| CloudReduction.CapDropsTheWeakest | robocam/processors/deep3r.py:1184-1190 | no point the cap drops is more confident than one it keeps |
| CloudReduction.OnePerVoxel | robocam/processors/deep3r.py:1260-1278 | as many points are picked as the input has voxels |
| CloudReduction.ReduceKeepsTheMostConfident | robocam/processors/deep3r.py:1164-1191 | the reduced cloud: gated, one per voxel, as many as there are voxels or the cap, and any better input point has its voxel represented |
| CloudReduction.PackRoundTrip | robocam/processors/deep3r.py:1241-1256 | unpacking errs by less than one step of the scale plus the rounding of the origin, per coordinate |
| CloudReduction.FlatCloudRoundTrip | robocam/processors/deep3r.py:1247 | a cloud without extent comes back to within the rounding of the origin |

## Left out

- Sockets, JSON, serial ports, ROS, zlib, base64, threads, locks and real clocks: inputs and outputs; a step's inputs say what they gave.
- The neural model, the detector, image decoding and resizing, and locating a box in the cloud: foreign calls, taken as outcomes that may fail.
- Float rounding, NaN arithmetic and trigonometric functions: reals, `Option` and unit-circle pairs stand for them.
- Shutdown, dropped sessions, a reply the server's socket refuses and an eviction across sessions break "exactly one reply"; the last is stated exactly, the others are not steps of the model.
- Sessions.EveryStateAccounted: without a reconnect, because a reconnect clears the window while frames are under way.
- Worker start-up and the number of threads: a worker takes a frame, and finishes it whether its processor returned or raised.
- A region's centre and radius, coverage ratios and the agreement payload: functions of what is modelled.
- The keyframe store's distance test: whether the camera moved enough is an input.
- Extraction.EveryKindSurvives: one direction; the exact condition is that of `KindSurvivesIff`.
- A raise inside the decision stage, which would leave its state between two of the modelled steps; a raise before it, once the frame is counted, is modelled.
- CloudReduction.Reduce: the two library sorts are any order with the property they promise, since ties of confidence fall as the sort leaves them; colours follow the points and are not modelled.
- Compare.CompareCloud: the floor estimate and the rounded agreement ratio are not modelled; the shift search is a module of its own.
- LiDAR sector minima and projection, inertial attitude, mission ranking, reach judgement, snapshots, overlays, status lines, configuration loading, and the other processors.
- Speed, health and timing figures the serial readers report, and the scan time of a revolution.
