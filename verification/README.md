# Verified model of the thermal recovery gateway

The gateway reads Modbus frames from a serial line, decodes them into sensor records, solves a
drift-flux model of the two-phase flow for each record, watches the pressure, and drives a choke
valve with Modbus write requests. This project models that path and proves what it promises.

| files | what they model |
|---|---|
| `Words`, `ByteOrder`, `Wrappers`, `Reals` | bytes and words as bounded naturals, exclusive or digit by digit, byte orders, option and result types, lemmas on real products and quotients |
| `Crc16`, `Register`, `CrcTheory`, `CrcOrder`, `CrcRemainder`, `CrcStart` | CRC-16/Modbus: the table code, the bit-serial definition, the polynomial remainder, and what the checksum detects |
| `DriftFlux`, `DriftFluxTheory` | the relaxed fixed-point iteration for quality and void fraction, the velocities and the slip |
| `LeastSquares`, `Derivatives`, `Threat`, `Valve`, `ValveTheory`, `Controller`, `ControllerTheory` | the safety controller: slopes over a sliding window, the threat classifier, the valve equations, and what an assessment asks of the valve |
| `Override`, `Interceptor` | the override packets and the stateful interceptor that sends them |
| `Serial`, `SerialTheory` | cutting the byte stream into frames at silences |
| `Protocol`, `FrameOutput` | decoding read responses, the sensor record, and the binary output record |
| `Pipeline`, `PipelineTheory`, `PipelineRuns`, `PipelineJournal`, `PipelineDecoder`, `PipelineShutdown` | decoder workers, solver workers and the solver's own loop over bounded channels |

Code that updates state is a class or a method here, proved equal to a function of its inputs or of
the old state; the theorems are about those functions. Floating-point numbers are reals, times are
integer nanoseconds, and clock readings, read outcomes, send outcomes and scheduling are inputs.
`sqrt` and `pow` are function parameters. Most statements assume only sign facts of them; those that relate
the flow regimes assume the laws of powers of positive numbers and that a root squares to its argument
(`ValveTheory.Lawful`).

Verify everything with `dafny verify dfyconfig.toml`.

## What the proofs found

- With its default settings the solver always answers with a quality of practically zero: on every input
  with positive mass flux, no downward drift, 0 < rhoV <= rhoL and densities clear of the 1e-30 guards the
  loop stops by its tolerance, at the latest in pass 497 of 0 to 499, with a quality below 6e-6. Zero is
  the only fixed point of the quality update, and each update shrinks the quality by at least C0.
- `Solve` can never report a convergence failure: every exit of the loop, the 0.5 fallback included, is
  reported as converged. The fallback is real: whenever 0.1 * 0.7^(M-1) * (C0-1) >= tolerance * C0, M passes
  are too few for every such input and the answer is 0.5; with the default tolerance 27 passes are.
- The controller's "second derivative" is a regression over the step index: on a parabola sampled every
  dt it is 2 a dt, not 2 a.
- Keeping 64 samples loses nothing exactly when `MinSamplesForDeriv` is at most 64; above that the
  derivatives stay zero for ever.
- The threat level can fall when the pressure rises faster. For prediction horizons of at least 0 it does
  exactly when the surge threshold is positive and the acceleration is above three and at most ten times the
  threshold; the condition for negative horizons is proved too.
- Under given limits the acceleration branch can raise a Critical level if and only if the surge threshold
  and the pressure limit are positive and the prediction horizon is between 0 and 14142 ns.
- The two mass-flux formulas of the valve agree where the flow chokes, so the flow is continuous there. The
  velocity it reports is not: in choked flow that is the speed of sound at the upstream temperature.
- A lockdown packet always carries 0, which agrees with the adopted `LockdownOpening` exactly when that
  is below 0.001.
- Bytes the reader has taken in are never offered to the channel only if the port disappears while they are
  pending. A frame that is offered is still dropped when the channel is full, and may be when the context is
  done. Whatever the other bursts of a trace are, a burst comes out as one frame exactly when it has fewer
  than 256 bytes before its last chunk and at most 4096 in all.
- A frame that keeps its length under corruption always fails the checksum after a burst of up to 16
  bits, an odd number of flips, or any two flips within 4095 bytes. The limits are exact: one 17-bit
  pattern and flips 32767 bits apart pass.

## Model

| member | source | states |
|---|---|---|
| Crc16.CrcTable.constructor | internal/crc/crc16.go:10-22 | the filled table holds, for every byte, eight bit-serial shift steps of it |
| Crc16.CrcTable.Crc16Modbus | internal/crc/crc16.go:24-30 | the table-driven loop returns the bit-serial checksum of every byte sequence |
| Crc16.CrcTable.ValidateCRC16 | internal/crc/crc16.go:32-40 | accepts exactly the frames of at least four bytes whose trailer, low byte first, is the checksum of the rest |
| Crc16.CrcTable.AppendCRC16 | internal/crc/crc16.go:42-45 | the data followed by its checksum, low byte first |
| Crc16.TableStep | internal/crc/crc16.go:26-28 | one table lookup equals adding a byte and shifting eight times |
| CrcTheory.RunIsFeed | internal/crc/crc16.go:24-30 | the checksum is the register of a shift register with the generator's taps, fed the bits in transmission order |
| CrcTheory.ValidIffResidueZero | internal/crc/crc16.go:24-40 | a frame of at least four bytes is valid if and only if the checksum of the whole frame, trailer included, is 0 |
| CrcTheory.AppendValidates | internal/crc/crc16.go:32-45 | an appended checksum validates if and only if there are at least two data bytes |
| CrcTheory.SyndromeDecides | internal/crc/crc16.go:24-40 | whether a corrupted copy of a valid frame validates depends on the flipped bits alone |
| CrcTheory.BurstDetected | internal/crc/crc16.go:10-40 | any non-empty corruption within 16 consecutive transmitted bits is rejected, for any frame length |
| CrcTheory.SeventeenBitBurst | internal/crc/crc16.go:10-40 | a corruption spanning 17 bits passes if and only if it is the generator's own pattern |
| CrcTheory.OddFlipsDetected | internal/crc/crc16.go:10-40 | any odd number of flipped bits, trailer included, is rejected |
| CrcTheory.TwoFlips | internal/crc/crc16.go:10-40 | two flipped bits pass if and only if their distance is a multiple of 32767 |
| CrcTheory.TwoFlipsDetected | internal/crc/crc16.go:10-40 | so any two flipped bits in a frame of up to 4095 bytes are rejected |
| CrcStart.ComplementedStart | internal/crc/crc16.go:5-30 | the checksum of two or more bytes is that of the message with its first 16 bits complemented, from an empty register |
| CrcStart.LeadingZeroBytes | internal/crc/crc16.go:5-30 | zero bytes put before a message leave its checksum alone if and only if their number is a multiple of 32767 |
| CrcOrder.OrderOfX | internal/crc/crc16.go:15-16 | x^n = 1 modulo the generator if and only if 32767 divides n |
| CrcOrder.OrderExact | internal/crc/crc16.go:15-16 | x^n (x + 1) = x + 1 modulo the generator if and only if 32767 divides n |
| CrcRemainder.Division | internal/crc/crc16.go:10-30 | every message has a quotient and a remainder on division by x^16 + x^15 + x^2 + 1 |
| CrcRemainder.DivisionUnique | internal/crc/crc16.go:10-30 | and only one of each |
| CrcRemainder.ChecksumIsRemainder | internal/crc/crc16.go:24-30 | c is the checksum if and only if its bits are that remainder of the message |
| DriftFlux.SolveDriftFlux | internal/driftflux/solver.go:266-353 | the loop returns the quality, void fraction and pass count of the iteration, and always reports convergence |
| DriftFluxTheory.Updates | internal/driftflux/solver.go:283-330 | in the physical range no guard or clamp acts, the void fraction is x / Denom, the quality update collapses to x r / (C0 r + k + x (C0 - 1)(1 - r)) and is at most x / C0, and 0 is its only fixed point |
| DriftFluxTheory.IterateCertificate | internal/driftflux/solver.go:283-347 | from any state the loop ends by tolerance or exhaustion, x never rises, and a tolerance exit is within tolerance C0 / (C0 - 1) of the fixed point |
| DriftFluxTheory.SolveCertificate | internal/driftflux/solver.go:266-353 | the same for the whole solve from its starting point |
| DriftFluxTheory.SolveConverges | internal/driftflux/solver.go:283-347 | the tolerance exit is taken by pass m once (0.1 rhoL / rhoV) (0.7 + 0.3 / C0)^m is below the tolerance |
| DriftFluxTheory.Descend | internal/driftflux/solver.go:283-347 | after n passes the loop has stopped, or the quality is below k density ratios or below rho^n times its bound, rho being the faster rate that holds that far above the density ratio |
| DriftFluxTheory.DefaultConverges | internal/driftflux/solver.go:83-92 | with the default settings and any drift velocity of at least 0, the loop stops by tolerance on every physical input, by pass 497, and by pass 463 if rhoV / rhoL >= 5e-6; never by a guard or the fallback |
| DriftFluxTheory.SolveExhausts | internal/driftflux/solver.go:283-352 | with M passes and 0.1 * 0.7^(M-1) * (C0-1) >= tolerance * C0 the solve ends with the 0.5 fallback on every physical input |
| DriftFluxTheory.TwentySevenPasses | internal/driftflux/solver.go:83-92 | so 27 passes never suffice for the default tolerance |
| DriftFluxTheory.EveryAnswer | internal/driftflux/solver.go:277-352 | for every input, a density or mass flux that is not positive is answered at once, and every exit but by tolerance or by the second guard answers 0.5 for both unknowns |
| DriftFluxTheory.FirstPass | internal/driftflux/solver.go:267-347 | the first pass leads from 0.1 and 0.1 three tenths of the way to the first update |
| DriftFluxTheory.VoidCertificate | internal/driftflux/solver.go:283-347 | a tolerance exit returns a void fraction within 0.7 tolerances of the drift-flux relation at a quality within 0.3 tolerances of the one returned |
| DriftFluxTheory.VolumeAlwaysBalances | internal/driftflux/solver.go:367-380 | for every void fraction, also outside (0, 1), alpha vV + (1 - alpha) vL = vm |
| DriftFluxTheory.VelocitiesConserve | internal/driftflux/solver.go:367-380 | alpha rhoV vV + (1 - alpha) rhoL vL = G and alpha vV + (1 - alpha) vL = vm |
| DriftFluxTheory.SlipIsVelocityRatio | internal/driftflux/solver.go:363 | the slip ratio times vL is vV |
| DriftFluxTheory.SlipVelocityLaw | internal/driftflux/solver.go:355-365 | slip^2 vL = Vdj^2 vV between the pure phases, and no slip at either |
| DriftFluxTheory.DriftFluxLaw | internal/driftflux/solver.go:284-293 | the unrelaxed void fraction the loop computes, when strictly between 0 and 1, gives vV = C0 vm + Vdj exactly, for any C0 and Vdj |
| LeastSquares.Fit | internal/choke/controller.go:207-228 | four running sums and one guarded division give the least-squares slope written over pairs of points |
| LeastSquares.RiseIdentity | internal/choke/controller.go:227 | the numerator is the sum over pairs of (p_j - p_i)(t_j - t_i) |
| LeastSquares.RunIdentity | internal/choke/controller.go:222 | the denominator is the sum over pairs of (t_j - t_i)^2 |
| LeastSquares.SlopeBetweenChords | internal/choke/controller.go:207-228 | the slope lies between any bounds on the chord slopes |
| Derivatives.ComputeFirstDerivative | internal/choke/controller.go:198-229 | the loop over the window returns the slope of pressure over seconds |
| Derivatives.ComputeSecondDerivative | internal/choke/controller.go:231-282 | the loops return the slope of the chord slopes over their index |
| Derivatives.GuardFiresIff | internal/choke/controller.go:222-225 | with nanosecond stamps the 1e-30 guard fires if and only if all stamps in the window are equal |
| Derivatives.FirstDerivativeBetweenChords | internal/choke/controller.go:198-229 | otherwise the derivative lies between the least and the greatest chord slope |
| Derivatives.FirstDerivativeOfLine | internal/choke/controller.go:198-229 | and is exact on linear data |
| Derivatives.SettlingDerivative | internal/choke/controller.go:198-229 | it is not positive for non-increasing pressure |
| Derivatives.SettlingLevel | internal/choke/controller.go:151-176 | over such a window the level is Imminent from the limit on, else Elevated from the warning share of it on, else Normal, as long as the largest allowed rise is not negative |
| Derivatives.EleventhForgotten | internal/choke/controller.go:204-205 | with ten samples at hand, no earlier one changes either derivative |
| Derivatives.OldestCounts | internal/choke/controller.go:204-228 | over an advancing clock, any other pressure in the tenth last sample, or in the first of fewer, gives another first derivative |
| Derivatives.StalledSkipped | internal/choke/controller.go:243-252 | a sample whose stamp is not later than the one before adds no slope to the second derivative |
| Derivatives.IndexRun | internal/choke/controller.go:265-275 | over k chord slopes the denominator is k^2 (k^2 - 1) / 12 |
| Derivatives.IndexGuardNeverFires | internal/choke/controller.go:275-278 | so the second guard never fires |
| Derivatives.SpeedingUp | internal/choke/controller.go:231-282 | chord slopes that never fall give a result of at least 0 |
| Derivatives.SecondDerivativeOfParabola | internal/choke/controller.go:231-282 | equally spaced samples of a t^2 + b t + c give exactly 2 a dt |
| Threat.MonotoneInPressure | internal/choke/controller.go:113-176 | for fixed derivatives the level never falls as the pressure rises |
| Threat.MonotoneInAcceleration | internal/choke/controller.go:113-176 | for fixed pressure and first derivative it never falls as the acceleration rises |
| Threat.DerivativeMonotoneIff | internal/choke/controller.go:113-176 | for every configuration, the level never falls as the first derivative rises if and only if: with a horizon of at least 0 or a limit of at most 0, the acceleration is outside (3, 10] times a positive surge threshold; otherwise the acceleration is not positive or the least surge is at least half of acceleration times backward horizon |
| Threat.FallingLevel | internal/choke/controller.go:284-301 | in that band a concrete faster rise drops the level from at least Critical, for a positive horizon from Imminent, to at most Elevated |
| Threat.FallingBack | internal/choke/controller.go:303-312 | with a negative horizon, a positive limit and the condition failing, a concrete faster rise drops the level from Imminent to at most Elevated |
| Threat.CriticalForces | internal/choke/controller.go:119-163 | at a Critical level the pressure rises, the straight line reaches the limit within the horizon and one nanosecond, the quadratic forecast stays below it, and so d2P/dt2 < 2e-9 dP/dt / h^2 in seconds |
| Threat.CriticalByAccelerationIff | internal/choke/controller.go:284-312 | for any given limits, some reading is Critical by acceleration alone if and only if the surge threshold and the pressure limit are positive and the horizon is between 0 and 14142 ns |
| Threat.LevelIff | internal/choke/controller.go:113-176 | for all limits and readings, when each level is reported, in thresholds, nanoseconds and products, without division or rounding |
| Threat.TimeToBreachIs | internal/choke/controller.go:125-140 | the time to breach is the time in which the rise crosses the gap, rounded to a nanosecond; 0 past a limit that stays passed; without a rise the horizon or the largest duration |
| Valve.FlowIsFluxTimesArea | internal/choke/valve.go:65-150 | the flow solve is flux times area times coefficient, with the flux that the opening solve uses, in both regimes |
| Valve.OpeningInvertsFlow | internal/choke/valve.go:65-202 | the flow at the required opening is the target, clamped between 0.001 and 1 times the full-open flow |
| Valve.OpeningMonotone | internal/choke/valve.go:152-202 | a larger positive target never needs a smaller opening |
| Valve.CriticalOpensLess | internal/choke/controller.go:158-170 | the opening for 0.3 of a flux never exceeds that for 0.6 of it |
| ValveTheory.FluxesMeet | internal/choke/valve.go:112-139 | for an ideal gas the subsonic flux at the critical pressure ratio equals the choked flux |
| ValveTheory.FlowIsExitFlux | internal/choke/valve.go:81-139 | in both regimes the mass flow is exit density times velocity times effective area, taken at the downstream or, if choked, at the critical pressure |
| ValveTheory.ChokedIgnoresDownstream | internal/choke/valve.go:108-118 | choked flow does not depend on the downstream pressure |
| ValveTheory.NoDropNoFlow | internal/choke/valve.go:99-139 | without a pressure drop the flow is subsonic and both mass flow and velocity are 0 |
| ValveTheory.ChokesIff | internal/choke/valve.go:73-110 | the flow chokes if and only if pressure, temperature and density are positive and the downstream pressure is at most the critical share of the upstream one |
| ValveTheory.MachIsRatio | internal/choke/valve.go:96-133 | the Mach number times a speed of sound whose square is 461.5 gamma T is the velocity |
| ValveTheory.FlowReports | internal/choke/valve.go:65-140 | the reported ratio, opening, velocity and state, and no flow where there is no gas |
| ValveTheory.WideOpenIff | internal/choke/valve.go:152-202 | the opening solve answers 1 if and only if nothing is asked for, nothing can flow, or at least the full-open flow is asked for |
| ValveTheory.FluxPositiveIff | internal/choke/valve.go:160-189 | it finds a positive flux if and only if the pressure falls across the valve |
| Controller.SafetyController.Assess | internal/choke/controller.go:84-184 | the assessment is the evaluation of the grown window; window, counters and last assessment become exactly the new ones |
| ControllerTheory.AssessmentThrottles | internal/choke/controller.go:142-176 | at Critical (Elevated) the required opening passes 0.3 (0.6) of the vapour flux, cut to what the valve can pass, or is 1 without vapour or pressure drop; at Imminent it is the lockdown opening, at Normal the current one |
| ControllerTheory.DensityIsIdeal | internal/choke/controller.go:142-148 | the density given to the valve obeys the ideal-gas law, and is positive if and only if pressure and temperature are |
| ControllerTheory.AssessmentReports | internal/choke/controller.go:103-176 | derivatives, surge, forecast, margin, override and lockdown of an assessment |
| Controller.SafetyController.ComputeDerivatives | internal/choke/controller.go:186-196 | both derivatives, or zeros below the minimum number of samples |
| Controller.SafetyController.Reset | internal/choke/controller.go:326-332 | clears the window and both counters and nothing else |
| Controller.RunHistory | internal/choke/controller.go:87-101 | after every run of Assess and Reset the samples are the last 64 at most of those since the last reset, and totalAssess is their whole number |
| Controller.TrimInvisible | internal/choke/controller.go:98-101 | keeping the last 64 samples changes neither derivative |
| Controller.TrimInvisibleIff | internal/choke/controller.go:98-101 | for every history if and only if at most 64 samples are demanded |
| Controller.TrimmingRefines | internal/choke/controller.go:84-111 | over every run of Assess and Reset, the trimmed controller agrees with one that keeps every sample, in every assessment and count |
| Override.RegisterRoundTrip | internal/choke/modbus_override.go:164-174 | a register value read as an opening and written back is itself up to 1000, and 1000 above |
| Override.OpeningRoundTrip | internal/choke/modbus_override.go:164-174 | an opening loses less than a thousandth, downwards |
| Override.AssembleWriteSingle | internal/choke/modbus_override.go:136-145 | the six request bytes followed by their checksum |
| Override.AssembleWriteMultiple | internal/choke/modbus_override.go:147-162 | the header, the values big-endian, and their checksum |
| Override.Builder.BuildEmergencyOverride | internal/choke/modbus_override.go:39-75 | the packet for the opening, or for 0 in a lockdown, with the next sequence number |
| Override.Builder.BuildLockdownOverride | internal/choke/modbus_override.go:77-102 | the packet for 0 at emergency priority, with the next sequence number |
| Override.Builder.BuildMultiRegisterOverride | internal/choke/modbus_override.go:104-134 | the write-multiple packet for all values, with the next sequence number |
| Override.SingleRoundTrip | internal/choke/modbus_override.go:136-145 | a write-single request parses back to its address, register and value (MODBUS Application Protocol V1.1b3, section 6.6) |
| Override.MultipleRoundTrip | internal/choke/modbus_override.go:147-162 | a write-multiple request parses back to its fields if and only if it has 1 to 123 registers (section 6.12) |
| Interceptor.ChokeInterceptor.ProcessFrame | internal/choke/interceptor.go:151-232 | assessment, packet, reported opening and the whole new state, counters included, for every send outcome |
| Interceptor.ChokeInterceptor.SetCurrentOpening | internal/choke/interceptor.go:248-256 | the opening becomes the argument clamped to [0, 1] and nothing else changes |
| Interceptor.ChokeInterceptor.SetDownstreamPressure | internal/choke/interceptor.go:244-246 | the downstream pressure becomes the argument and nothing else changes |
| Interceptor.RunConsistent | internal/choke/interceptor.go:151-256 | over every run the opening stays in [0, 1], frames equal assessments, and overrides plus lockdowns equal the controller's count |
| Interceptor.RunLogsPackets | internal/choke/interceptor.go:183-207 | over every run overrides plus lockdowns is the number of packets built, lockdowns the number of emergency ones, and every packet validates, is addressed to the configured register and bears the next sequence number |
| Interceptor.LimitLocksDown | internal/choke/interceptor.go:171-207 | a frame at or above the limit leaves the opening at LockdownOpening with a valid packet of value 0 and priority 0xFF |
| Interceptor.QuietRunKeepsOpening | internal/choke/interceptor.go:151-256 | only a Critical or Imminent frame or SetCurrentOpening moves the opening |
| Interceptor.PacketMatchesOpening | internal/choke/interceptor.go:171-207 | a packet is built exactly for those frames, and its value is floor(1000 times the new opening) if and only if it is no lockdown or LockdownOpening is below 0.001 |
| Interceptor.VaporFluxIsQuality | internal/choke/interceptor.go:154-161 | in a solved frame the vapour flux read is the quality times the mass flux, and pressure and temperature are the frame's |
| Interceptor.CriticalThrottles | internal/choke/interceptor.go:151-207 | after a Critical frame the adopted opening passes 0.3 of the arriving vapour, cut to what the valve can pass |
| Serial.AppendBytes | internal/gateway/serial.go:162 | appending in place, growing only when there is no room, gives the old bytes followed by the new |
| Serial.SerialGateway.DispatchFrame | internal/gateway/serial.go:181-198 | a non-empty buffer is offered as a frame with storage of its own; what the channel holds are copies of exactly the offered frames it took, and both counters count them |
| Serial.SerialGateway.ReceiveBytes | internal/gateway/serial.go:148-171 | one read with data, on the reused buffer, is the specified step |
| Serial.SerialGateway.HandleReadError | internal/gateway/serial.go:119-145 | one failed read, with its error count, back-off and cancellation, is the specified step |
| Serial.SerialGateway.ReadLoop | internal/gateway/serial.go:88-179 | for every trace the loop offers exactly the frames of the specification's run, never disturbing earlier frames |
| SerialTheory.NoByteLost | internal/gateway/serial.go:88-179 | for every trace the frames followed by the pending bytes are exactly the bytes read |
| SerialTheory.StopsIff | internal/gateway/serial.go:98-146 | a loop has stopped if and only if it met a stop, a cancellation, a missing port, a failed read while not running, or a cancelled back-off after 100 failures in a row; until then its error count is that number of failures |
| SerialTheory.OnlyAGonePortLosesBytes | internal/gateway/serial.go:99-111 | a loop that has stopped holds no pending bytes, unless the port's absence stopped it |
| SerialTheory.FramesAreBounded | internal/gateway/serial.go:155-171 | at every loop head each frame has 1 to 4096 bytes and fewer than 256 bytes are pending |
| SerialTheory.DeliveredIsFramesOf | internal/gateway/serial.go:146-172 | for every trace on which the loop still runs, the frames delivered, pending bytes included, are burst by burst those that each burst between silences makes on its own |
| SerialTheory.StoppedFrames | internal/gateway/serial.go:98-179 | the same for a loop stopped by any event; unless the port went away, all of them have been offered |
| SerialTheory.OnePieceIff | internal/gateway/serial.go:155-171 | a burst makes exactly one frame, its own bytes, if and only if it has fewer than 256 bytes before its last chunk and at most 4096 in all |
| SerialTheory.EachBurst | internal/gateway/serial.go:146-179 | in every trace, whatever stops the loop short of the port going away, each burst's own frames stand between those of the earlier and of the later bursts, and are the one frame holding it if and only if it fits (MODBUS over Serial Line V1.02, section 2.5.1.1) |
| SerialTheory.FramesAreBurstsIff | internal/gateway/serial.go:146-179 | so the frames of such a stopped loop are the bursts, one each, if and only if every burst fits |
| Protocol.BitDecoder.DecodeModbusRTU | internal/protocol/decoder.go:32-104 | frame, error and all five counters, for every byte string |
| Protocol.EveryDecodeIsCounted | internal/protocol/decoder.go:42-103 | over every run of calls total + invalid - noise is the number of calls, and each counter is the number of calls with its outcome |
| Protocol.ResponseRoundTrip | internal/protocol/decoder.go:32-162 | a read response with 16 to 255 data bytes decodes and extracts to exactly its fields: thousandths of the pressure unit, hundredths of a kelvin, the counter, and the capacitance meter if and only if the type byte is 2 (MODBUS Application Protocol V1.1b3, section 6.3) |
| Protocol.ExtractedIff | internal/protocol/decoder.go:106-162 | exactly which byte strings become a sensor record |
| Protocol.ExtractErrors | internal/protocol/decoder.go:106-127 | which error is given otherwise: an invalid frame if and only if decoding failed, insufficient data if and only if a valid frame carries fewer than 16 bytes |
| Protocol.DamageIsNoise | internal/protocol/decoder.go:79-99 | an accepted frame hit by a burst of up to 16 bits, an odd number of flips or two flips is reported as a checksum error and never extracted |
| FrameOutput.SerializeBinary | internal/frame/output.go:518-557 | the writer's loops and shifts, signed timestamp included, give the record's image of 138 bytes |
| FrameOutput.QuantityAt | internal/frame/output.go:523-537 | quantity i is found low byte first at offset 2 + 8 i of the 138 bytes |
| FrameOutput.FixedBytes | internal/frame/output.go:521-554 | the bytes before and after the quantities, at their offsets |
| FrameOutput.ParseImage | internal/frame/output.go:518-557 | reading it back gives the record, up to the counter modulo 2^48 and the iterations modulo 256 |
| FrameOutput.SameBytesIff | internal/frame/output.go:518-557 | two records have the same bytes if and only if they agree up to those remainders |
| FrameOutput.StreamSplits | internal/frame/output.go:518-557 | a concatenation of images splits back into its records |
| FrameOutput.CounterSurvives | internal/frame/output.go:542-547 | bytes 130 to 135 of the record are bytes 8 to 13 of the sensor's register data |
| PipelineTheory.StepKeepsWeight | internal/pipeline/pipeline.go:111-230 | under any weighing of messages, a step changes the total weight only when a message is accepted |
| PipelineTheory.StepExcusesLosses | internal/pipeline/pipeline.go:147-156 | a worker loses a message only by stopping after its context was cancelled |
| PipelineTheory.StepCountsOwn | internal/driftflux/solver.go:130-178 | every record the solver's own loop took is counted in TotalFrames or FailedFrames, but for one in hand |
| PipelineRuns.RunSound | internal/pipeline/pipeline.go:111-230 | after any interleaving every accepted message is in exactly one place, drop counters equal what was dropped, channels keep their capacity, and only usable messages pass the decoders |
| PipelineRuns.RunExtends | internal/pipeline/pipeline.go:111-230 | no step of a run is ever blocked by the model's own precondition |
| PipelineRuns.Accounts | internal/pipeline/pipeline.go:111-230 | the accepted messages are the queued, held, skipped, consumed, counted as dropped and lost ones; at most one is lost per worker and none before a cancellation |
| PipelineRuns.ForwardedOnce | internal/pipeline/pipeline.go:161-199 | each consumed frame comes from one accepted, cleanly decoded message, once, and from none that was dropped or reported |
| PipelineJournal.RunAgrees | internal/pipeline/pipeline.go:111-230 | at every state of every interleaving the channels hold, in order, what was put in and not yet taken out, and each drop list, TotalFrames and FailedFrames are those of the moves made |
| PipelineJournal.RunFollows | internal/pipeline/pipeline.go:161-199 | over every run exactly what the solver solved goes on as a frame, and a message that yields a record is reported as an error only if the solver failed it |
| PipelineJournal.VerdictsDecide | internal/driftflux/solver.go:130-178 | every frame queued, consumed or dropped was solved, and every usable message among the errors failed |
| PipelineJournal.EndsForCause | internal/pipeline/pipeline.go:147-199 | a message is dropped only at a full channel while the context is not done, and lost only once it is |
| PipelineJournal.RunStopsForCause | internal/pipeline/pipeline.go:118-157 | no worker stops while its running flag is up |
| PipelineDecoder.BumpsCount | internal/protocol/decoder.go:42-101 | the single increments of a call add up to the decoder's contract |
| PipelineDecoder.SharedCounters | internal/protocol/decoder.go:42-103 | however the workers' increments interleave, the counters are those of the same calls made in sequence less the increments still to come; total + invalid - noise is the number of calls once none is halfway |
| PipelineShutdown.MoveLowersRank | internal/pipeline/pipeline.go:118-157 | with the running flags down every move of a worker brings it nearer to stopping |
| PipelineShutdown.ShutdownIsBounded | internal/pipeline/pipeline.go:244-283 | from then on each worker makes at most nine moves |
| PipelineShutdown.ModbusIsTerse | internal/protocol/decoder.go:42-101 | the bound applies to the Modbus decoder, whose calls make at most four counter increments |
| PipelineShutdown.NeverStuck | internal/pipeline/pipeline.go:119-157 | and a worker whose context is cancelled always has a move, whatever the channels hold |

## Left out

- NaN and infinity guards, floating-point rounding and float-to-integer overflow: numbers are reals; a time to breach is truncated to nanoseconds as in the source, without its 64-bit bound.
- Counters are unbounded naturals; only the sequence number wraps, at 2^32.
- Sockets, serial port calls, files, logging, configuration, signals, panic recovery and shutdown timeouts: their outcomes are inputs or absent.
- Network retries of the override sender: the send outcome is an input of ProcessFrame.
- Thermodynamic correlations, the temperature range checks of Solve, the mixture viscosity and Reynolds number: densities are inputs, and whether a record can be solved is an input of the pipeline.
- TCP gateway, output clients, JSON and CSV forms, strings and descriptions.
- Minimum, maximum and average statistics of the solver's own loop.
- The CRC table is filled in place and then kept as the sequence it holds, since it is never written again.
- DriftFlux.SolveDriftFlux: its loop calls the function Advance for the two updates of one pass.
- PipelineRuns.RunSound: workers are a step system on values, one atomic operation per step, rather than methods with channels; a channel of capacity 0 is always full, so a direct hand-over to a waiting receiver is not modelled, and neither are sends on a closed raw channel.
- Messages in the pipeline are named by their order of acceptance; their bytes are looked up, not copied.
- Override.Builder.BuildMultiRegisterOverride: an empty value list, on which the source indexes out of range, is excluded.
- Override.Builder.BuildEmergencyOverride: openings outside [0, 65.536), for which the 16-bit conversion of the source is not defined, are excluded.
- Valve.OpeningInvertsFlow: valve settings have a heat-capacity ratio above 1 and a positive area and discharge coefficient, as the defaults do.
- Protocol.ResponseRoundTrip: the clock reading put into the record is left out.
- FrameOutput.SerializeBinary: the fifteen quantities are given as their 64-bit patterns.
