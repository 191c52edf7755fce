# rp2040_pio_stepper, modelled in Dafny

This project models the sequential integer logic of rp2040_pio_stepper.
That repository holds RP2040 firmware that drives stepper motors, GPIO, an
I2C port expander and a MODBUS spindle inverter, the LinuxCNC driver that
talks to it over UDP, and several host test clients. The model proves
properties of that logic. Each core source file becomes one Dafny module
(a few have a companion `...Props` module of lemmas):

| source | module(s) | file |
|---|---|---|
| src/shared/buffer.c | NetBuffer, NetBufferIntended | buffer.dfy |
| src/shared/checksum.c | Checksum | checksum.dfy |
| src/rp2040/ring_buffer.c | RingBuffer, RingBufferProps | ring_buffer.dfy |
| src/rp2040/config.c | RpConfig, RpConfigProps | config.dfy |
| src/rp2040/gpio.c | RpGpio, RpGpioProps | gpio.dfy |
| src/rp2040/core0.c | RpCore0, RpCore0Props | core0.dfy |
| src/driver/rp2040_network.c | DriverNetwork | driver_network.dfy |
| src/rp2040/pio.c | RpPio | rp_pio.dfy |
| src/rp2040/modbus.c | ModbusCrc, ModbusVfd, ModbusRtu, ModbusRtuProps | modbus_crc.dfy, modbus_rtu.dfy |
| src/rp2040/modbus_huanyang.c, modbus_fuling.c, modbus_weiken.c | ModbusHuanyang, ModbusFuling, ModbusWeiken | modbus_drivers.dfy |
| src/rp2040/i2c.c, i2c.h | I2cEngine, I2cEngineProps | i2c.dfy |
| src/rp2040/mcp23017.c | Mcp23017, Mcp23017Props | mcp23017.dfy |
| src/test_client/udp.c | ClientUdp | client_udp.dfy |
| src/test_client/simple_udp.c | SimpleUdp | simple_udp.dfy |
| test_client/udp.c | LegacyClientUdp | legacy_client_udp.dfy |
| test_client/udp_v0.2.c | LegacyClientUdpV02 | legacy_client_udp_v02.dfy |
| test_client/graphing.py | Graphing | graphing.dfy |
| src/rp2040/convert_to_emulator_hex.py | PioHex | pio_hex.dfy |
| sender/sender.c | Sender | sender.dfy |
| sender/config.c | SenderConfig | sender_config.dfy |
| sender/pio.c | SenderPio | sender_pio.dfy |
| pico_stepper/pico_stepper.c | PicoStepper | pico_stepper.dfy |

Shared helpers sit in their own modules:
- `Wrappers` holds Option and Result.
- `CInt` holds the C integer widths as explicit wrap-around, C's
  truncating `/` (CDiv), and little-endian words. No truncating `%` is
  needed, since every `%` in the modelled sources has non-negative operands.
- `SeqSum` holds sums of sequences.
- `Text` holds digits, white space and decimal numerals.
- `PacketLayout` holds word-level memcpy and memset of packets.

The model follows the C code's control flow. Code that updates state in
place becomes a class or a method with loop invariants. Each such method
is proved against a specification function. The source's properties are
lemmas about those functions.

Widths are explicit. Every uint32_t, uint16_t and uint8_t is stored
reduced modulo 2^32, 2^16 or 2^8. Signed values are stored in their
range after two's-complement wrap.

Floats and doubles are carried as their raw bits and never computed
with. The one exception is the kp product of sender/pio.c, which is taken
in exact real arithmetic. Messages on the wire are sequences of bytes or 32-bit words.

## Model

| member | source | states |
|---|---|---|
| NetBuffer.NWBuffer.constructor | src/shared/buffer.h:11-15 | A declared buffer starts with length 0, checksum 0 and a zeroed 256-byte payload. |
| NetBuffer.NWBuffer.Pack | src/shared/buffer.c:3-15 | If length + new_data_len > NW_BUF_LEN, packNWBuff returns 0 and changes nothing; an exact fill is allowed. Otherwise it copies the data to payload[length..], leaves every other byte as it was, adds new_data_len to the length, sets checksum := checksum(old checksum, new_data) and returns new_data_len. |
| NetBuffer.NWBuffer.Unpack | src/shared/buffer.c:17-37 | unPackNWBuff returns 1 exactly when offset + len <= length and length <= NW_BUF_LEN, and then copies payload[offset..offset+len). Otherwise it returns 0 and copies nothing. The buffer never changes. |
| NetBuffer.NWBuffer.Check | src/shared/buffer.c:39-46 | checkNWBuff returns 1 exactly when the stored checksum equals a fresh checksum over the payload, and 0 otherwise |
| NetBuffer.PackThenUnpack | src/shared/buffer.c:3-37 | Round trip on one buffer: when L + n <= NW_BUF_LEN, packNWBuff at old length L returns n and the new length is L + n; unPackNWBuff(L, n) then returns 1 and exactly the n packed bytes; the payload before L is unchanged. |
| NetBuffer.PackKeepsCheck | src/shared/buffer.c:9-12 | Take a consistent buffer with a zero tail and an even length. If the 256 bytes at new_data are zero past new_data_len, the checksum packNWBuff stores equals the one checkNWBuff recomputes over the new payload. |
| NetBufferIntended.IntendedPackKeepsCheck | src/shared/buffer.c:12 | A checksum over only the new_data_len bytes (the corrected checksum) keeps checkNWBuff passing after every pack at an even offset, whatever lies in memory after the data. |
| NetBufferIntended.PackChecksumMismatch | src/shared/buffer.c:12 | As written, packing the byte 1 into an empty buffer, with the byte 7 next to it in memory, stores a checksum that checkNWBuff rejects. |
| Checksum.Words | src/shared/checksum.c:7-8 | The loop reads 128 host-order (little-endian) 16-bit words from the window, word k from bytes 2k and 2k+1. |
| Checksum.ComputeChecksum | src/shared/checksum.c:6-11 | The loop returns (initial + the sum of the 128 words) mod 2^16. new_data_len plays no part. |
| Checksum.ChecksumOf | src/shared/checksum.c:6-11 | a window of zero bytes leaves the initial value unchanged |
| Checksum.ChecksumInitialShift | src/shared/checksum.c:6-10 | checksum(c, d) = (c + checksum(0, d)) mod 2^16. |
| Checksum.ChecksumPermutation | src/shared/checksum.c:7-9 | Reordering the 128 words leaves the checksum unchanged. |
| Checksum.ChecksumIncrement | src/shared/checksum.c:7-9 | Adding 1 (mod 2^16) to one word adds 1 (mod 2^16) to the checksum. |
| RingBuffer.Zeroed | src/rp2040/ring_buffer.h:8-20 | The zero-initialised structs satisfy the ring invariant of both widths: 1000 slots, head < RING_BUF_AVE_LEN, count <= RING_BUF_AVE_LEN, and every value in range. |
| RingBuffer.UintStep | src/rp2040/ring_buffer.c:6-21 | One call of ring_buf_uint_ave keeps the ring invariant, and count is at least 1 afterwards, so the division never divides by zero. |
| RingBuffer.IntStep | src/rp2040/ring_buffer.c:26-41 | The same for ring_buf_int_ave, with int32 wrap-around of the total and C's truncating division. |
| RingBuffer.RingBufUintAve.constructor | src/rp2040/ring_buffer.h:8-13 | A declared uint ring starts zeroed. |
| RingBuffer.RingBufUintAve.Ave | src/rp2040/ring_buffer.c:6-21 | The in-place update of buf[head], head, total and count, and the return value, are exactly one UintStep of the old state. |
| RingBuffer.RingBufIntAve.constructor | src/rp2040/ring_buffer.h:15-20 | A declared int ring starts zeroed. |
| RingBuffer.RingBufIntAve.Ave | src/rp2040/ring_buffer.c:26-41 | The in-place update and the return value are exactly one IntStep of the old state. |
| RingBufferProps.StepAdvances | src/rp2040/ring_buffer.c:7-18 | The new value goes to the old head and no other slot changes. The head advances by one modulo RING_BUF_AVE_LEN. count grows by one up to RING_BUF_AVE_LEN and then stays there. |
| RingBufferProps.ZeroedConsistent | src/rp2040/ring_buffer.h:8-20 | In the zeroed structs the total equals the sum of the slots. |
| RingBufferProps.UintStepKeepsConsistent | src/rp2040/ring_buffer.c:13-18 | Each call keeps total equal to the sum of all slots mod 2^32. Until the ring is full, head equals count and the slots from head on are zero. |
| RingBufferProps.IntStepKeepsConsistent | src/rp2040/ring_buffer.c:33-38 | Each call keeps total equal to the sum of all slots, wrapped to int32. |
| RingBufferProps.UintConstantStream | src/rp2040/ring_buffer.c:6-21 | A constant input v returns v on every call, before and after the ring wraps, as long as RING_BUF_AVE_LEN * v fits in 32 bits. |
| RingBufferProps.FilledSum | src/rp2040/ring_buffer.c:7-18 | storing v into a ring filled with v leaves count copies of v, summing to count times v |
| RingBufferProps.IntConstantStream | src/rp2040/ring_buffer.c:26-41 | The same for the signed ring, as long as RING_BUF_AVE_LEN * v fits in int32. |
| RingBufferProps.IntStepShape | src/rp2040/ring_buffer.c:26-40 | The signed ring returns the new total divided by the new count with C truncation. The slot, head and count updates match the unsigned ones. |
| RpConfig.WriteFields | src/rp2040/config.c:218-256 | The data writes of update_axis_config change exactly the fields the update names. They leave both core counters alone. An update that names nothing changes nothing. |
| RpConfig.ReadFields | src/rp2040/config.c:309-347 | get_axis_config writes exactly through the non-NULL output pointers. |
| RpConfig.UpdateAxis | src/rp2040/config.c:258-265 | A CORE0 update increments updated_from_c0 and a CORE1 update increments updated_from_c1, both with uint8_t wrap-around. The other counter is unchanged. |
| RpConfig.TakeOther | src/rp2040/config.c:297-307 | get_axis_config by CORE0 returns updated_from_c1 and resets it to 0; CORE1 is symmetric. The caller's own counter is untouched. |
| RpConfig.InitialAxis | src/rp2040/config.c:27-98 | Each axis starts with both counters 0 and the step and direction pins at -1 (unset). |
| RpConfig.WrappedDiff | src/rp2040/config.c:156-157 | The int32_t difference of two uint32_t counters is their true difference, brought into int32 range by adding or subtracting 2^32. |
| RpConfig.Config.constructor | src/rp2040/config.c:26-98 | The globals start at their initialisers: last update id and time 0, update period 1000 us, the initial axes. |
| RpConfig.Config.UpdatePeriod | src/rp2040/config.c:122-130 | update_period stores the period and changes nothing else. |
| RpConfig.Config.GetPeriod | src/rp2040/config.c:134-144 | get_period returns the stored period, i.e. the value last passed to update_period. |
| RpConfig.Config.UpdatePacketMetrics | src/rp2040/config.c:147-183 | id_diff = update_id - last_update_id and time_diff = time - last_update_time, each wrapped to int32. Then the new id and time become the last ones; nothing else changes. |
| RpConfig.Config.HasNewC0Data | src/rp2040/config.c:185-191 | has_new_c0_data returns the axis' updated_from_c0 counter. |
| RpConfig.Config.UpdateAxisConfig | src/rp2040/config.c:193-268 | axis >= MAX_AXIS changes nothing. Otherwise exactly that axis becomes UpdateAxis of its old value; the other axes and the globals are unchanged. |
| RpConfig.Config.GetAxisConfig | src/rp2040/config.c:271-352 | axis >= MAX_AXIS returns 0, writes nothing and changes nothing. Otherwise it returns and resets the other core's counter, and writes the requested fields as they were. Data fields never change. |
| RpConfig.Config.SerialiseTiming | src/rp2040/config.c:355-371 | The timing reply carries the current period. The function succeeds iff pack_nw_buff accepted it. |
| RpConfig.Config.SerialiseAxisMovement | src/rp2040/config.c:374-426 | Succeeds iff the axis exists and the reply was packed. For a valid axis it reads abs_pos_acheived and velocity_acheived as core 0, which resets that axis' core-1 counter and nothing else. |
| RpConfig.Config.SerialiseAxisConfig | src/rp2040/config.c:445-492 | The same guard. It reads enabled, the step and direction pins, max velocity and max acceleration, and resets the core-1 counter. |
| RpConfig.Config.SerialiseAxisMetrics | src/rp2040/config.c:495-538 | The same guard. It reads velocity_requested and step_len_ticks, and resets the core-1 counter. |
| RpConfig.SerialiseSpindleSpeed | src/rp2040/config.c:428-442 | serialise_spindle_speed succeeds iff the reply was packed. |
| RpConfigProps.UpdateThenReadWritten | src/rp2040/config.c:218-256 | Reading back exactly the fields an update wrote returns the update (update, then get). |
| RpConfigProps.UpdateKeepsOthers | src/rp2040/config.c:218-256 | Fields the update did not name read back as before. |
| RpConfigProps.TakeKeepsData | src/rp2040/config.c:297-347 | A get never changes a data field; only the other core's counter moves. |
| RpConfigProps.SecondTakeIsZero | src/rp2040/config.c:297-307 | Two gets with no update between them: the second reports 0. |
| RpConfigProps.UpdatesAreCounted | src/rp2040/config.c:258-265 | After the other core has read, n < 256 updates by one core are reported to the other core as n. |
| RpConfigProps.UpdateAll | src/rp2040/config.c:258-265 | A sequence of updates by one core leaves the other core's counter alone. |
| RpConfigProps.OtherCoreCountsNothing | src/rp2040/config.c:258-265 | An update by a core other than 0 or 1 writes the data but increments no counter. |
| RpConfigProps.CounterWraps | src/rp2040/config.c:258-260 | The uint8_t counter wraps: an update when it stands at 255 leaves it at 0. |
| RpConfigProps.WrappedDiffOfAdvance | src/rp2040/config.c:156-157 | A timing message d after the previous one (both counters wrapping at 2^32) yields difference d, for any d that fits in int32_t. |
| RpGpio.UpdateConfig | src/rp2040/gpio.c:24-53 | update_gpio_config keeps the table's size. |
| RpGpio.McpAllocOf | src/rp2040/gpio.c:127-142 | gpio_i2c_mcp_alloc touches only the expander tables: the pins, the pending flags and the pin writes are unchanged. |
| RpGpio.McpOutOf | src/rp2040/gpio.c:146-163 | gpio_i2c_mcp_set_out_pin touches only the expander tables. |
| RpGpio.McpPinOf | src/rp2040/gpio.c:165-173 | gpio_i2c_mcp_get_pin changes the state only through its allocation of the address. |
| RpGpio.PinStep | src/rp2040/gpio.c:83-114 | One turn of gpio_set_values' loop keeps the state well formed and its table sizes. |
| RpGpio.ReadingOf | src/rp2040/gpio.c:196-222 | An input pin reports its configured value and changes nothing. A native output pin reports what gpio_get returns. |
| RpGpio.ScanStep | src/rp2040/gpio.c:186-224 | One turn of gpio_serialize's first loop appends pin g's reading to the bits. It never changes the configuration. |
| RpGpio.ScanUpTo | src/rp2040/gpio.c:185-225 | n turns yield n readings, one to_send flag per bank, and an unchanged configuration table. |
| RpGpio.PendingReplies | src/rp2040/gpio.c:230-245 | There is at most one reply per bank. |
| RpGpio.GpioState.constructor | src/rp2040/gpio.c:20-22 | The zero-initialised globals: every pin unset, no bank pending, every MCP slot unclaimed. |
| RpGpio.GpioState.InitGpio | src/rp2040/config.c:101-107 | init_gpio sets every pin to unset with index and address 0, keeps the pin values, and changes nothing else. |
| RpGpio.GpioState.UpdateGpioConfig | src/rp2040/gpio.c:24-53 | The in-place update is UpdateConfig of the old table. The other globals are unchanged. |
| RpGpio.GpioState.GetGpioConfig | src/rp2040/gpio.c:55-80 | get_gpio_config returns the stored fields of the pin, or nothing for a pin beyond MAX_GPIO. |
| RpGpio.GpioState.LocalSetOutPin | src/rp2040/gpio.c:117-121 | gpio_local_set_out_pin issues exactly one gpio_put of the value on the pin, and changes nothing else. |
| RpGpio.GpioState.McpAlloc | src/rp2040/gpio.c:127-142 | The in-place allocation is exactly McpAllocOf. |
| RpGpio.GpioState.McpSetOutPin | src/rp2040/gpio.c:146-163 | The in-place bit write is exactly McpOutOf. |
| RpGpio.GpioState.McpGetPin | src/rp2040/gpio.c:165-173 | The read is exactly McpPinOf over the expander's input bytes. |
| RpGpio.GpioState.SetPin | src/rp2040/gpio.c:83-114 | One turn of the loop, in place, is exactly PinStep. |
| RpGpio.GpioState.SetValues | src/rp2040/gpio.c:82-115 | gpio_set_values, in place, is exactly SetValuesOf, i.e. its 32 turns. |
| RpGpio.GpioState.ReadPin | src/rp2040/gpio.c:196-222 | One reading, in place, is exactly ReadingOf. |
| RpGpio.GpioState.ScanPins | src/rp2040/gpio.c:185-225 | The first loop of gpio_serialize, in place, is exactly ScanUpTo over all pins. |
| RpGpio.GpioState.Serialize | src/rp2040/gpio.c:176-246 | The state after the scan and the replies packed are the specification's: one reply for each pending bank, in bank order, packed until one does not fit. *tx_buf_len is unchanged with no reply, is one reply's size when all fit, and is 0 otherwise. |
| RpGpio.GpioState.SerialiseGpioConfig | src/rp2040/gpio.c:249-270 | A pin beyond MAX_GPIO is refused with no reply. Otherwise the reply carries the pin's type, number, index and address, and succeeds iff it was packed. |
| RpGpio.PackReplies | src/rp2040/gpio.c:227-245 | The second loop packs the pending banks' replies until the first that does not fit, and reports whether all fit. |
| RpGpio.PendingRepliesPrefix | src/rp2040/gpio.c:230-245 | The replies for the banks below b are a prefix of those for the banks below any b2 >= b. |
| RpGpio.PackedStopsAtFirstMisfit | src/rp2040/gpio.c:236-243 | When bank b's reply does not fit, what was packed is exactly the replies of the banks before b, and the result is a failure. |
| RpGpio.PackedAllFit | src/rp2040/gpio.c:236-243 | When every reply fits, all are packed and the result is a success. |
| RpGpioProps.UpdateBeyondMaxChangesNothing | src/rp2040/gpio.c:32-35 | update_gpio_config with gpio >= MAX_GPIO changes nothing, and get_gpio_config refuses that pin. |
| RpGpioProps.ReadBackAfterUpdate | src/rp2040/gpio.c:37-80 | Reading a pin back after an update: each given field is stored, except an index above 32, which keeps the old index. Each field not given keeps its value, and the other pins are untouched. |
| RpGpioProps.AllocFindsClaimsOrRefuses | src/rp2040/gpio.c:127-142 | gpio_i2c_mcp_alloc returns the first slot already holding the address and changes nothing. Otherwise it claims the first free (0xFF) slot in both tables. Otherwise it returns -1 and changes nothing. |
| RpGpioProps.AllocTwiceIsAllocOnce | src/rp2040/gpio.c:127-142 | A second allocation of the same address finds the slot the first one returned and changes nothing. |
| RpGpioProps.SetBitChangesOnlyThatBit | src/rp2040/gpio.c:156-162 | Setting or clearing bit k makes bit k equal to v and leaves the other bits. |
| RpGpioProps.McpOutWritesOneBit | src/rp2040/gpio.c:146-163 | gpio_i2c_mcp_set_out_pin writes bit (index & 7) of output byte ((index >> 3) & 1) of the address' slot and nothing else besides the allocation. With no slot left it changes nothing. |
| RpGpioProps.McpPinReadsOneBit | src/rp2040/gpio.c:165-173 | gpio_i2c_mcp_get_pin reads that same bit of the slot's input bytes, and false when there is no slot. |
| RpGpioProps.PinStepEffect | src/rp2040/gpio.c:92-112 | One turn sets the pin's value to its bit. It flags the bank iff the value changed, calls gpio_put for a changed native input pin, and writes the expander bit for a changed I2C input pin. |
| RpGpioProps.BankUpToPins | src/rp2040/gpio.c:83-114 | After j turns, pins 32*bank + i hold bit i of values for every i < j. No other pin and no other field has changed. |
| RpGpioProps.BankUpToPending | src/rp2040/gpio.c:95-98 | After j turns the bank is pending iff it was, or one of its first j pins changed. Other banks are as before. |
| RpGpioProps.BankUpToWrites | src/rp2040/gpio.c:100-105 | After j turns, gpio_put has been called once for each changed native input pin, in pin order, and for nothing else. |
| RpGpioProps.BankUpToUnchangedMcp | src/rp2040/gpio.c:94-96 | With no changed pin, the turns leave the expander slots and their addresses alone. |
| RpGpioProps.SetValuesTakesBits | src/rp2040/gpio.c:82-115 | After gpio_set_values every pin of the bank holds its bit of values (bit g mod 32) and keeps its type, index and address. The pins of other banks are untouched. |
| RpGpioProps.SetValuesFlagsChange | src/rp2040/gpio.c:94-98 | pending[bank] becomes true iff some pin of the bank changed, and is otherwise left as it was. No other bank's flag moves. |
| RpGpioProps.ChangedInMeans | src/rp2040/gpio.c:94-98 | The recursive change test holds iff one of the first j pins differs from its bit. |
| RpGpioProps.SetValuesDrivesChangedNativePins | src/rp2040/gpio.c:94-105 | Changed native input pins are driven with gpio_put, in pin order; nothing else is. |
| RpGpioProps.SetValuesWithoutChangeIsSilent | src/rp2040/gpio.c:94-96 | When every pin already holds its bit, the call changes nothing and drives nothing. |
| RpGpioProps.SetValuesIdempotent | src/rp2040/gpio.c:82-115 | Applying the same values twice is the same as applying them once. |
| RpGpioProps.ScanReadings | src/rp2040/gpio.c:185-225 | The scan reports an input pin by its configured value and a native output pin by what gpio_get reads. |
| RpGpioProps.ScanBitIsReading | src/rp2040/gpio.c:185-225 | Pin g's bit is what the read on turn g returned, whatever happens later. |
| RpGpioProps.ScanStepFlags | src/rp2040/gpio.c:198-217 | One turn flags pin g's bank (to_send and pending) exactly when it is an output pin whose reading differs from its configured value. |
| RpGpioProps.ScanFlags | src/rp2040/gpio.c:198-217 | A bank is flagged to_send iff one of its output pins read back a value other than the configured one, and it is then pending too. A differing pin's configuration is not updated. A bank not flagged keeps its pending flag. |
| RpGpioProps.ScanStepKeepsFlags | src/rp2040/gpio.c:198-217 | Each turn preserves the relation ScanFlags states. |
| RpGpioProps.RepliesArePendingBanks | src/rp2040/gpio.c:230-245 | Only pending banks are answered. A reply's values are the bank's 32 readings packed into a word, and its confirmation flag is the bank's to_send. |
| RpGpioProps.RepliesInBankOrder | src/rp2040/gpio.c:230-245 | The replies come in increasing bank order. |
| RpGpioProps.PendingBanksAnswered | src/rp2040/gpio.c:230-245 | Every pending bank gets a reply. |
| RpCore0.KindOf | src/rp2040/core0.c:83-197 | The case a type word selects, trying the labels in the switch's order. Whatever it selects has that code. |
| RpCore0.KindOfCode | src/rp2040/core0.c:83-197 | With distinct case labels, each kind's code selects that kind's case. |
| RpCore0.MsgAt | src/rp2040/core0.c:84-191 | The message read from the struct at buf[at] has the kind asked for, and its value fits the field it sets. |
| RpCore0.Encode | src/rp2040/core0.c:84-191 | A message laid down by a sender takes exactly the size of its struct. |
| RpCore0.EncodeRead | src/rp2040/core0.c:83-191 | A struct laid down by Encode reads back: its type word is the kind's code, that code selects the kind's case, and the struct's fields read back as the message. |
| RpCore0.DecodePlaced | src/rp2040/core0.c:82-191 | Messages placed one after another and followed by a 0 type word are exactly the messages the walk handles; it stops at that 0 word, with the cursor at the start plus the sum of their sizes. |
| RpCore0.EncodeAllPlaced | src/rp2040/core0.c:84-191 | Messages encoded back to back, followed by a 0 type word, are placed: each struct starts where the previous one's size ends. |
| RpCore0.DecodeEncoded | src/rp2040/core0.c:82-191 | Round trip: with distinct non-zero codes, decoding EncodeAll(ms) followed by a 0 word yields exactly ms, ends at the sum of their sizes and stops at the 0 word. |
| RpCore0.Decode | src/rp2040/core0.c:82-198 | Every message the walk handles fits the field it sets, and the cursor never moves back. A walk that stops at a zero or an unknown type word has read that word inside the buffer; one that finds neither inside the buffer is an overrun. |
| RpCore0.SerialiseMetrics | src/test/rp_network_tx_test.c:21-59 | serialise_metrics keeps the 1024-byte (DATA_BUF_SIZE) tx buffer and a length within it. |
| RpCore0.AxesAfter | src/rp2040/core0.c:97-191 | The axes after update_axis_config are still MAX_AXIS axes. |
| RpCore0.Apply | src/rp2040/core0.c:84-191 | Each recognised message increments *received_count once (uint8_t) and keeps the period. A set-message leaves the metrics and tx_buf alone; a timing message leaves the axes alone. |
| RpCore0.ApplyAll | src/rp2040/core0.c:84-191 | handling any run of messages keeps the state consistent and never changes the update period |
| RpCore0.Finish | src/rp2040/core0.c:192-196 | An unknown type resets tx_buf_len to 0 and changes nothing else. |
| RpCore0.SerialiseMetricsInto | src/test/rp_network_tx_test.c:21-59 | Writing the metrics reply into the tx_buf array is exactly SerialiseMetrics of the old bytes. |
| RpCore0.Handle | src/rp2040/core0.c:84-191 | One case of the switch on the objects is exactly Apply on the state they hold. |
| RpCore0.DecodeTurn | src/rp2040/core0.c:84-191 | On a struct of a known kind, the decoder yields its message and then decodes on from the next struct, stopping where and as that walk stops. |
| RpCore0.NextTerminated | src/rp2040/core0.c:82 | On a walk that is terminated, a known struct lies inside the buffer, and the walk from the next struct is terminated too. |
| RpCore0.ReceivedTerminated | src/rp2040/network.c:32-34 | a 1024-byte rx_buf that is zero from byte 256 on, as get_UDP leaves it, gives a terminated walk from any type word inside it, when no struct is longer than 764 bytes |
| RpCore0.RunTurn | src/rp2040/core0.c:82-198 | One turn of the walk handles the struct's message, then walks on from the next struct. |
| RpCore0.Run | src/rp2040/core0.c:82-198 | the walk keeps the state consistent and never changes the update period |
| RpCore0.StopTurn | src/rp2040/core0.c:192-196 | A zero word ends the walk with nothing changed. An unknown type ends it with tx_buf_len reset to 0. |
| RpCore0.Turn | src/rp2040/core0.c:84-191 | One loop turn handles the message and moves the cursor forward, keeping the walk's goal. |
| RpCore0.WalkedTo | src/rp2040/core0.c:82-191 | after one loop turn the cursor is still inside the buffer of a terminated walk, and the walk from there reaches the same end |
| RpCore0.WalkTurn | src/rp2040/core0.c:82-191 | on a terminated walk a known struct lies inside the buffer, is at least its header and value long, and the walk from the next struct on the handled state reaches the same end |
| RpCore0.Walk | src/rp2040/core0.c:82-198 | The while loop leaves the counters, tx_buf and the config exactly as the functional walk Run over the received bytes. It requires the walk from byte 0 to be Terminated, since the C loop has no bound; core0_main meets this (ReceivedTerminated). |
| RpCore0.ProcessReceivedBuffer | src/rp2040/core0.c:75-202 | process_received_buffer's final state is Run over the received bytes, and rx_buf is all zero afterwards. It requires the walk from byte 0 to be Terminated; core0_main meets this, because get_UDP stores at most 256 bytes into the zeroed 1024-byte rx_buf (ReceivedTerminated). |
| RpCore0Props.ApplyAllCounts | src/rp2040/core0.c:84-191 | Every handled message increments *received_count by one, mod 256. |
| RpCore0Props.ApplyAllSetsKeepTx | src/rp2040/core0.c:97-191 | Set-messages alone leave the metrics, tx_buf and tx_buf_len as they were. With ApplyAllCounts: three enable messages from a fresh state give a count of 3 and a tx length of 0. |
| RpCore0Props.ReceivedCountsMessages | src/rp2040/core0.c:82-198 | *received_count grows by the number of recognised messages in the buffer (mod 256). |
| RpCore0Props.UnknownTypeDropsReplies | src/rp2040/core0.c:192-196 | A walk that stops at an unknown type returns tx_buf_len 0. A walk that does not, with no timing message, leaves tx_buf_len as it was. |
| RpCore0Props.SetMessageWritesOneField | src/rp2040/core0.c:97-191 | A set-message names exactly one field. On a valid axis that field reads back as the message's value, every other field and axis is unchanged, and core 0's counter moves. An invalid axis changes no axis. |
| RpCore0Props.MetricsWords | src/test/rp_network_tx_test.c:35-42 | A Reply_metrics is the four little-endian words REPLY_METRICS, update_id, time_diff and the period. |
| RpCore0Props.TimingMessageRecords | src/rp2040/core0.c:84-96 | A timing message records its update_id and time as the last seen and keeps the bytes already queued. When the reply does not fit, tx_buf is unchanged. |
| RpCore0Props.TimingMessageReplies | src/rp2040/core0.c:84-96 | When the reply fits, a timing message queues a Reply_metrics at the old tx_buf_len: REPLY_METRICS, update_id, the wrapped time difference and the period. tx_buf_len grows by its size and the bytes after it are kept. |
| DriverNetwork.Final | src/driver/rp2040_network.c:272-300 | an input pin keeps its HAL value; an output pin and a pin of any other type end with the bit last received |
| DriverNetwork.OutAfter | src/driver/rp2040_network.c:275-288 | after serialize_gpio every output pin holds its received bit and every other pin's gpio_data_out is untouched |
| DriverNetwork.BitsOf | src/driver/rp2040_network.c:251-304 | the value sent for every pin of every bank is that pin's final value |
| DriverNetwork.ToSend | src/driver/rp2040_network.c:303 | to_send holds, per bank, the word built from the bank's final pin values |
| DriverNetwork.BankFlags | src/driver/rp2040_network.c:274-300 | confirmation_pending[bank] is set exactly when the bank is flagged by one of its pins |
| DriverNetwork.MessagesOf | src/driver/rp2040_network.c:306-318 | the second loop queues at most one message per bank, only for the banks it visited |
| DriverNetwork.PackEach | src/driver/rp2040_network.c:316 | packing never takes more bytes than the room left, and packs nothing when one message does not fit |
| DriverNetwork.PackEachPrefix | src/driver/rp2040_network.c:306-320 | the packed messages are a prefix of those queued, in order, and the bytes returned are their sizes summed |
| DriverNetwork.PackEachFits | src/driver/rp2040_network.c:306-320 | the packed messages fit the room, and when one is left out not even one more would have fitted |
| DriverNetwork.PackEachSnoc | src/driver/rp2040_network.c:316 | one more message is packed exactly when its size fits the room still left |
| DriverNetwork.BankWordBits | src/driver/rp2040_network.c:303 | bit j of bank b's word is the final value of pin 32*b+j |
| DriverNetwork.MessageOfBank | src/driver/rp2040_network.c:306-318 | a message goes out for a bank iff it is flagged now or its confirmation was asked for, and it carries the bank's word and flag |
| DriverNetwork.MessageForBank | src/driver/rp2040_network.c:241-321 | for the pins: a Message_gpio is packed for a bank iff a pin flagged it or gpio_confirmation_pending[bank], with the bank's final values and whether it was flagged |
| DriverNetwork.FlaggedStep | src/driver/rp2040_network.c:274-300 | after pin g, a bank is flagged iff one of its pins up to g flags it |
| DriverNetwork.FlaggedAll | src/driver/rp2040_network.c:251-304 | once every pin is seen, a bank is flagged iff one of its pins differs from its received bit and is an input or output |
| DriverNetwork.KindOf | src/driver/rp2040_network.c:586-625 | the switch of process_data selects the reply kind whose code equals the type word, and none when no code does |
| DriverNetwork.Arity | src/driver/rp2040_network.c:324-547 | each reply carries between 2 and 6 32-bit fields after its type word |
| DriverNetwork.Fields | src/driver/rp2040_network.c:324-547 | the unpack of a reply reads exactly as many fields as its kind has |
| DriverNetwork.Apply | src/driver/rp2040_network.c:324-547 | every unpack_* that succeeds increments received_count exactly once |
| DriverNetwork.Step | src/driver/rp2040_network.c:577-625 | one turn of the walk either stops with state and offset unchanged, or advances the offset within the length and counts one reply |
| DriverNetwork.Walk | src/driver/rp2040_network.c:576-626 | the walk's final offset never passes the length and received_count never decreases |
| DriverNetwork.Process | src/driver/rp2040_network.c:550-626 | a wrong length or a bad checksum leaves the host state unchanged, and received_count never decreases |
| DriverNetwork.Accepted | src/driver/rp2040_network.c:562-574 | a buffer is looked at only when its expected length is the header plus at most NW_BUF_LEN bytes |
| DriverNetwork.FieldsOfCopy | src/driver/rp2040_network.c:330-343 | the fields read from the copy an unpack makes are those in the buffer at the offset |
| DriverNetwork.Encode | src/driver/rp2040_network.c:324-547 | the bytes of a reply are its type word and four bytes per field |
| DriverNetwork.WordBytesRead | src/driver/rp2040_network.c:324-547 | each 32-bit word written out little-endian is read back |
| DriverNetwork.CodeOfEncoded | src/driver/rp2040_network.c:579-585 | the header of an encoded reply reads back its kind's code |
| DriverNetwork.FieldsOfEncoded | src/driver/rp2040_network.c:324-547 | the fields of an encoded reply read back as written |
| DriverNetwork.WalkReadsReply | src/driver/rp2040_network.c:576-626 | a reply encoded at the offset is decoded by its type, its fields stored, and the walk goes on right after it |
| DriverNetwork.ConfirmationRequested | src/driver/rp2040_network.c:536-546 | a GPIO reply that asks for confirmation makes the next serialize_gpio send that bank back |
| DriverNetwork.PackMessages | src/driver/rp2040_network.c:306-320 | the second loop of serialize_gpio packs the messages of the flagged or pending banks in bank order while they fit |
| DriverNetwork.Driver.constructor | src/driver/rp2040_network.c:241-249 | the pins start with the given types and host state, all values false |
| DriverNetwork.Driver.ReconcilePins | src/driver/rp2040_network.c:251-304 | the first loop yields every pin's final value and the flagged banks, sets the output pins to the bits received, and changes nothing else |
| DriverNetwork.Driver.ReconcilePin | src/driver/rp2040_network.c:252-303 | one pin: its final value, whether it flags its bank, and gpio_data_out changed only at that pin and only for an output |
| DriverNetwork.Driver.SerializeGpio | src/driver/rp2040_network.c:241-321 | output pins take the values received, and the messages for the flagged or pending banks are packed while they fit; the result is the bytes packed |
| DriverNetwork.Driver.UnpackReply | src/driver/rp2040_network.c:324-547 | an unpack succeeds iff the reply lies within the data; then the offset moves past it and its fields are stored, otherwise nothing changes |
| DriverNetwork.Driver.ProcessData | src/driver/rp2040_network.c:550-635 | a buffer with a wrong length, a length over NW_BUF_LEN or a bad checksum is ignored; otherwise the replies are read in order as the walk specifies |
| DriverNetwork.Driver.WalkReplies | src/driver/rp2040_network.c:576-626 | the loop of process_data leaves the host state the walk specifies |
| DriverNetwork.Driver.ReadReply | src/driver/rp2040_network.c:577-625 | one turn of that loop does what one step of the walk specifies |
| I2cEngine.Len7 | src/rp2040/i2c.c:36 | data_len keeps the header's low seven bits: a value below 0x80 congruent to the header modulo 0x80 |
| I2cEngine.Room | src/rp2040/i2c.c:121 | with no destination buffer no byte may be stored |
| I2cEngine.DstContentsIrrelevant | src/rp2040/i2c.c:119-129 | the engine's validity depends on the destination's size, not on the bytes it holds |
| I2cEngine.Init | src/rp2040/i2c.c:7-17 | init clears data_pos, data_len and i2c_addr and, through reset, leaves the engine in FAIL |
| I2cEngine.WithSequence | src/rp2040/i2c.c:19-23 | set_sequence records the address and points data_ptr at the program's start, leaving the phase as it is |
| I2cEngine.WithSequenceValid | src/rp2040/i2c.c:19-40 | a well-formed program set on an engine that then goes idle gives a consistent engine |
| I2cEngine.ValidWriteInBounds | src/rp2040/i2c.c:48-55 | in WRITE_BYTE the byte data_ptr[data_pos] lies inside the program |
| I2cEngine.StepWriteByteValid | src/rp2040/i2c.c:48-80 | the WRITE_BYTE case keeps the engine consistent |
| I2cEngine.StepValid | src/rp2040/i2c.c:25-186 | every call of i2c_engine_run keeps the phase, the program position and the destination index consistent |
| I2cEngine.IsFault | src/rp2040/i2c.h:46-48 | a faulted engine is not idle, and every further call of i2c_engine_run leaves it unchanged without progress |
| I2cEngine.IsIdle | src/rp2040/i2c.h:42-44 | an engine reported idle is left unchanged, without progress, by every further call of i2c_engine_run |
| I2cEngine.Step | src/rp2040/i2c.c:25-186 | a call of i2c_engine_run never changes the program, the address or the destination offset, and only appends to the bus log |
| I2cEngine.IdleValid | src/rp2040/i2c.c:27-40 | the IDLE case keeps the engine consistent |
| I2cEngine.StartValid | src/rp2040/i2c.c:41-47 | the START_WRITE case keeps the engine consistent |
| I2cEngine.EndValid | src/rp2040/i2c.c:81-95 | the WRITE_END and READ_END cases keep the engine consistent |
| I2cEngine.ReadByteValid | src/rp2040/i2c.c:96-106 | the READ_BYTE case keeps the engine consistent |
| I2cEngine.ReadByte2Valid | src/rp2040/i2c.c:119-129 | the READ_BYTE2 case keeps the engine consistent and stores inside the destination |
| I2cEngine.WaitValid | src/rp2040/i2c.c:69-80 | the timeout and abort checks keep the engine consistent |
| I2cEngine.I2cEngineState.constructor | src/rp2040/i2c.c:7-13 | a new engine is the initial state, in FAIL, with no destination |
| I2cEngine.I2cEngineState.Reset | src/rp2040/i2c.c:15-17 | reset sets the phase to FAIL and changes nothing else |
| I2cEngine.I2cEngineState.SetSequence | src/rp2040/i2c.c:19-23 | set_sequence installs the address, program and destination as WithSequence specifies |
| I2cEngine.I2cEngineState.ClearFault | src/rp2040/i2c.h:50-52 | clear_fault sets the phase to IDLE and changes nothing else |
| I2cEngine.I2cEngineState.Run | src/rp2040/i2c.c:25-186 | i2c_engine_run yields the state and progress flag of one step of the engine |
| I2cEngine.I2cEngineState.SelectTarget | src/rp2040/i2c.c:41-47 | START_WRITE addresses the target, moves to WRITE_BYTE and reports progress |
| I2cEngine.I2cEngineState.AwaitStop | src/rp2040/i2c.c:81-95 | WRITE_END and READ_END wait for the stop condition or the timeout as the step specifies |
| I2cEngine.I2cEngineState.RequestByte | src/rp2040/i2c.c:96-106 | READ_BYTE with FIFO room issues a read command and moves to READ_BYTE2 |
| I2cEngine.I2cEngineState.Recover | src/rp2040/i2c.c:156-182 | the FAIL, FAIL_WAIT1, FAIL_WAIT2 and FAIL_RECOVER cases behave as the recovery step specifies |
| I2cEngine.I2cEngineState.RunIdle | src/rp2040/i2c.c:27-40 | IDLE ends the program at a zero header or decodes the header, without reporting progress |
| I2cEngine.I2cEngineState.SendByte | src/rp2040/i2c.c:49-67 | WRITE_BYTE with the FIFO empty sends the next byte and advances as the step specifies |
| I2cEngine.I2cEngineState.StoreByte | src/rp2040/i2c.c:120-129 | READ_BYTE2 with a byte received stores it and advances as the step specifies |
| I2cEngine.I2cEngineState.TimeoutOrAbortStep | src/rp2040/i2c.c:69-80 | a waiting phase fails on a timeout or a non-zero abort source, as the step specifies |
| I2cEngineProps.ZeroHeaderEndsProgram | src/rp2040/i2c.c:31-34 | a zero header sets data_ptr to NULL, so the engine is idle |
| I2cEngineProps.HeaderDecoded | src/rp2040/i2c.c:35-40 | a non-zero header gives data_len = b & 0x7F, is_read = b >> 7, data_pos = 0 and START_WRITE, and data_ptr skips the header |
| I2cEngineProps.WriteByteSends | src/rp2040/i2c.c:49-67 | WRITE_BYTE sends the next byte with the restart and stop bits; after the last it reads the read length and goes to READ_BYTE, or goes to WRITE_END |
| I2cEngineProps.ReadByteStores | src/rp2040/i2c.c:120-129 | READ_BYTE2 stores the received byte at dst[data_pos] and after data_len bytes moves to READ_END, else back to READ_BYTE |
| I2cEngineProps.WriteCommandEndsAtNextHeader | src/rp2040/i2c.c:82-88 | after a write-only command data_ptr moves past its bytes to the next header |
| I2cEngineProps.ReadCommandEndsAtNextHeader | src/rp2040/i2c.c:143-148 | after a read data_ptr is already at the next header |
| I2cEngineProps.TimeoutFails | src/rp2040/i2c.c:69-73 | a timeout while waiting fails with abort reason 0 and reports progress |
| I2cEngineProps.AbortFails | src/rp2040/i2c.c:74-79 | the engine fails iff the abort source, as the uint8_t field keeps it, is non-zero, and records it |
| I2cEngineProps.FailureRecovery | src/rp2040/i2c.c:156-180 | FAIL moves to FAIL_WAIT1 unconditionally; each wait advances only on its timeout |
| I2cEngineProps.RecoverIsAbsorbing | src/rp2040/i2c.c:181-182 | FAIL_RECOVER stays put, whatever the hardware does, until the fault is cleared |
| I2cEngineProps.RunAll | src/rp2040/i2c.c:25-186 | any sequence of calls keeps the engine consistent |
| I2cEngineProps.ClearFaultIdle | src/rp2040/i2c.h:42-52 | after clear_fault the engine counts as idle iff its data pointer is NULL |
| Mcp23017.I2cWriteCmd | src/rp2040/mcp23017.c:5 | a write command is its length byte followed by the bytes |
| Mcp23017.I2cWriteAndReadCmd | src/rp2040/mcp23017.c:6 | a write-and-read command is 0x80 plus the write length, the bytes, then the read length |
| Mcp23017.SetupSequence | src/rp2040/mcp23017.c:9-13 | the setup sequence is nine bytes with the direction masks at 2 and 3 and the pull-up masks at 6 and 7 |
| Mcp23017.RunSequence | src/rp2040/mcp23017.c:15-19 | the run sequence is eight bytes with the output values at 2 and 3 |
| Mcp23017.SetupShapeIsSequence | src/rp2040/mcp23017.c:9-13 | a byte string has the setup shape iff it is the setup sequence with its own placeholder bytes |
| Mcp23017.RunShapeIsSequence | src/rp2040/mcp23017.c:15-19 | a byte string has the run shape iff it is the run sequence with its own placeholder bytes |
| Mcp23017.RunShapeWellFormed | src/rp2040/mcp23017.c:15-19 | every run sequence is a well-formed engine program whose read fits the chip's two input bytes |
| Mcp23017.SetupShapeWellFormed | src/rp2040/mcp23017.c:9-13 | every setup sequence is a well-formed engine program with no reads |
| Mcp23017.NextChip | src/rp2040/mcp23017.c:69-85 | the next chip is (cur_chip + 1) mod MAX_I2C_MCP and the engine stays idle |
| Mcp23017.NextChipOk | src/rp2040/mcp23017.c:69-85 | moving to the next chip leaves the engine consistent: its program is well-formed and its reads fit the destination |
| Mcp23017.WithEngine | src/rp2040/mcp23017.c:89 | after an engine step the poller is still consistent |
| Mcp23017.PollStep | src/rp2040/mcp23017.c:87-101 | a poll keeps the poller consistent |
| Mcp23017.PollRest | src/rp2040/mcp23017.c:91-100 | an idle engine moving on, or a failed one restarting, keeps the poller consistent |
| Mcp23017.StepKeepsDst | src/rp2040/i2c.c:119-129 | an engine step never moves its destination and writes only within the same memory |
| Mcp23017.InitialSlots | src/rp2040/mcp23017.c:48-64 | after init slot 0 is an MCP23017 at address 32 and every other slot is reset |
| Mcp23017.I2cGpio.constructor | src/rp2040/mcp23017.c:9-19 | the static sequences start with their placeholders zero and a fresh engine |
| Mcp23017.I2cGpio.Init | src/rp2040/mcp23017.c:48-67 | init resets every slot, makes slot 0 an MCP23017 at 32, sets cur_chip to MAX_I2C_MCP - 1 and keeps the sequences |
| Mcp23017.I2cGpio.ResetSlots | src/rp2040/mcp23017.c:49-61 | the loop gives every slot type NONE, address 0xFF, zero data and 0x7F masks, and clears the input bytes |
| Mcp23017.I2cGpio.Poll | src/rp2040/mcp23017.c:87-101 | a poll does what PollStep specifies and keeps the poller consistent |
| Mcp23017.I2cGpio.AfterIdleRun | src/rp2040/mcp23017.c:91-100 | once the engine made no progress, the rest of the poll does what PollRest specifies |
| Mcp23017.I2cGpio.Restart | src/rp2040/mcp23017.c:95-100 | the fault branch reloads the setup sequence with no destination, clears the fault and takes one step |
| Mcp23017.I2cGpio.NextChipStep | src/rp2040/mcp23017.c:69-85 | moving to the next chip does what NextChip specifies |
| Mcp23017Props.CommandEncodingDecodes | src/rp2040/mcp23017.c:5-6 | the engine decodes a command's header back to its write length, and the read flag is set only for a write-and-read command |
| Mcp23017Props.CycleStep | src/rp2040/mcp23017.c:70 | stepping congruent chip indices keeps them congruent modulo MAX_I2C_MCP |
| Mcp23017Props.AdvanceN | src/rp2040/mcp23017.c:70 | n moves advance the chip index by n modulo MAX_I2C_MCP, so MAX_I2C_MCP moves return to the start |
| Mcp23017Props.NextChipLoadsRunSequence | src/rp2040/mcp23017.c:73-81 | for an MCP23017 slot the engine gets the patched run sequence, the slot's address and its input bytes as destination, and the setup sequence gets its masks |
| Mcp23017Props.NextChipSkipsOthers | src/rp2040/mcp23017.c:82-84 | any other slot type leaves the engine and the sequences untouched |
| Mcp23017Props.FirstAdvanceIsSlotZero | src/rp2040/mcp23017.c:62-64 | after init the first advance selects slot 0, the MCP23017 at 32 |
| Mcp23017Props.PollReturnsOnProgress | src/rp2040/mcp23017.c:89-90 | when the engine made progress, a poll does nothing else |
| Mcp23017Props.PollRecoversFromFault | src/rp2040/mcp23017.c:95-100 | a failed engine restarts on the setup sequence of the current chip, with no destination, and its first step decodes the first header |
| ModbusCrc.N | src/rp2040/modbus.c:11 | a byte read as an integer is below 256 |
| ModbusCrc.ByteBack | src/rp2040/modbus.c:45-46 | an integer below 256 stored into a byte reads back unchanged |
| ModbusCrc.Double | src/rp2040/modbus.c:26 | shifting a byte below 128 left doubles it, and setting the freed bit adds one |
| ModbusCrc.CrcShiftMeans | src/rp2040/modbus.c:26 | the CRC bit step shifts right and xors 0xA001 exactly when the bit shifted out was 1 |
| ModbusCrc.TableRound | src/rp2040/modbus.c:26 | the branch-free step with mask ((~crc & 1) - 1) equals the conditional-xor bit step |
| ModbusCrc.ShiftXor | src/rp2040/modbus.c:26 | the bit step is linear over xor |
| ModbusCrc.ShiftsXor | src/rp2040/modbus.c:25-27 | any number of bit steps is linear over xor |
| ModbusCrc.ShiftEven | src/rp2040/modbus.c:26 | the bit step of an even word is a plain right shift |
| ModbusCrc.Shift8OfHigh | src/rp2040/modbus.c:36 | a word whose low byte is zero comes out of eight bit steps shifted right by eight |
| ModbusCrc.TableDriven | src/rp2040/modbus.c:35-36 | eight bit steps of a word equal the word shifted right by eight xored with the table entry of its low byte |
| ModbusCrc.LoHi | src/rp2040/modbus.c:91-92 | the low and high CRC bytes recompose the CRC, and only they do |
| ModbusCrc.WithCrcMatches | src/rp2040/modbus.c:87-94 | a frame with the CRC modbus_transmit appends passes the check of the receive routines |
| ModbusCrc.CorruptedCrcFails | src/rp2040/modbus.c:136-141 | a reply whose last two bytes differ from the CRC of its body fails the check |
| ModbusCrc.TableValue | src/rp2040/modbus.c:24-27 | the inner loop computes the table entry of its byte value |
| ModbusCrc.PrecomputeCrc16 | src/rp2040/modbus.c:22-30 | precompute_crc16 fills all 256 entries with the eight-step CRC of their index |
| ModbusCrc.CrcSnoc | src/rp2040/modbus.c:34-37 | the bitwise CRC of one more byte xors the byte in and takes eight bit steps |
| ModbusCrc.TableLookup | src/rp2040/modbus.c:36 | one lookup in a filled table takes the eight bit steps of the low byte |
| ModbusCrc.ModbusCrc16 | src/rp2040/modbus.c:32-39 | the table-driven CRC of data[0..size) equals the bitwise MODBUS CRC-16 from 0xFFFF |
| ModbusVfd.Requested | src/rp2040/modbus.c:204 | the request is the absolute value of the int16_t scaled frequency, except that -32768 stays -32768 |
| ModbusVfd.Report | src/rp2040/modbus.c:244-252 | the loop reports not ready unless all three readings are fresh; then 0 unless running, else the actual frequency with the direction's sign |
| ModbusVfd.WithFreshness | src/rp2040/modbus_huanyang.c:161-163 | the three freshness flags are set from the reading ages and nothing else changes |
| ModbusRtu.SetFreqFrame | src/rp2040/modbus.c:41-49 | a set-frequency request is five bytes |
| ModbusRtu.ReadStatusFrame | src/rp2040/modbus.c:51-58 | a read-status request is four bytes |
| ModbusRtu.ControlFrame | src/rp2040/modbus.c:60-68 | a control request is four bytes |
| ModbusRtu.RequestFrame | src/rp2040/modbus.c:217-241 | each request the Huanyang loop sends is four or five bytes |
| ModbusRtu.BigEndian | src/rp2040/modbus.c:153 | two data bytes read high byte first give a 16-bit value |
| ModbusRtu.Split | src/rp2040/modbus.c:45-46 | a 16-bit value split into its high and low bytes reads back high byte first |
| ModbusRtu.HuanyangReply | src/rp2040/modbus.c:143-185 | the reply switch changes only the fields it decodes, and nothing when it does not recognise the reply |
| ModbusRtu.StatusBits | src/rp2040/modbus.c:144-150 | a function-3 reply refreshes the status and changes only the status fields |
| ModbusRtu.StatusValue | src/rp2040/modbus.c:151-174 | a function-4 reply stores only the value of its status type, and nothing for an unknown type |
| ModbusRtu.RunState | src/rp2040/modbus_fuling.c:67-73 | a state word runs the spindle iff it is 1 or 2, in reverse iff it is 2, and refreshes the status |
| ModbusRtu.Received | src/rp2040/modbus_huanyang.c:60-122 | a receive ends with no reply iff no byte came, with a CRC error iff bytes came and the CRC does not match |
| ModbusRtu.Counted | src/rp2040/modbus_huanyang.c:98-121 | the newer receive routines count an unanswered outstanding request, a CRC error, or an unrecognised reply, and otherwise keep the decoded record |
| ModbusRtu.HuanyangOutcome | src/rp2040/modbus.c:129-190 | no byte means no reply, bytes with a bad CRC mean a CRC error, and a decoded reply changes only the fields it decodes, nothing when it is not recognised |
| ModbusRtu.AccessFrame | src/rp2040/modbus_fuling.c:126-148 | a register access is six bytes starting with the inverter's address |
| ModbusRtu.UartLen | src/rp2040/modbus.c:131-134 | at most 16 bytes, and no more than arrived, are read into the command buffer |
| ModbusRtu.Arrived | src/rp2040/modbus.c:131-132 | the reply bytes read land at the head of the command buffer and the rest is left as it was |
| ModbusRtu.Tick | src/rp2040/modbus.c:201-204 | each loop counts one more cycle and takes run, direction and request from the frequency argument |
| ModbusRtu.ModbusPort.constructor | src/rp2040/modbus.c:114-124 | after init the cycle is 10000, nothing is requested, and the current bit rate is the configured one |
| ModbusRtu.ModbusPort.Lay | src/rp2040/modbus.c:41-49 | a request is laid at the head of the command buffer with its length and a pause of 50 |
| ModbusRtu.ModbusPort.HuanyangSetFreq | src/rp2040/modbus.c:41-49 | huanyang_setfreq lays the set-frequency frame, length 5, pause 50 |
| ModbusRtu.ModbusPort.HuanyangReadStatus | src/rp2040/modbus.c:51-58 | huanyang_read_status lays the read-status frame, length 4, pause 50 |
| ModbusRtu.ModbusPort.HuanyangControl | src/rp2040/modbus.c:60-68 | huanyang_control lays the control frame and remembers the code as the last one |
| ModbusRtu.ModbusPort.HuanyangPollControlStatus | src/rp2040/modbus.c:70-72 | polling re-sends the last control code |
| ModbusRtu.ModbusPort.Transmit | src/rp2040/modbus.c:87-94 | modbus_transmit appends the frame's CRC, low byte first, and lengthens the frame by two |
| ModbusRtu.ModbusPort.SendHuanyang | src/rp2040/modbus.c:217-241 | one request of the loop is laid with its CRC and the last control code updated for control requests |
| ModbusRtu.ModbusPort.GetData | src/rp2040/modbus_huanyang.c:61 | the reply bytes are copied to the head of the command buffer and counted |
| ModbusRtu.ModbusPort.CheckReply | src/rp2040/modbus_huanyang.c:61-68 | the reply is accepted iff some byte came and the CRC of its body matches its last two bytes |
| ModbusRtu.ModbusPort.SendAccess | src/rp2040/modbus_fuling.c:126-151 | a register access is laid with its CRC, length 8, pause 50 |
| ModbusRtu.ModbusPort.UartHuanyangReceive | src/rp2040/modbus.c:129-190 | up to 16 bytes are read, and a reply whose CRC matches is decoded into the vfd record |
| ModbusRtu.ModbusPort.Loop | src/rp2040/modbus.c:192-253 | without a bit rate or address nothing changes; during a pause only the cycle, request and pause count change; else the reply is read and the request the priority picks is sent |
| ModbusRtu.HuanyangChoice | src/rp2040/modbus.c:217-241 | a frequency write only when the request differs from the set frequency, and with the request; a status read only of status 0 or 1; a control word only STOP, REVERSE or FORWARD |
| ModbusRtuProps.Digits | src/rp2040/modbus.c:45-46 | the high and low bytes huanyang_setfreq writes make up the value modulo 2^16 |
| ModbusRtuProps.HighLow | src/rp2040/modbus.c:45-46 | the two data bytes of a set-frequency frame read high byte first give the value modulo 2^16 |
| ModbusRtuProps.WidenNarrow | src/rp2040/modbus.c:228 | an int16_t request widened to unsigned and cut to 16 bits comes back unchanged |
| ModbusRtuProps.SetFreqFrameCarries | src/rp2040/modbus.c:41-49 | the set-frequency frame carries address, function 5, two data bytes and the frequency modulo 2^16 |
| ModbusRtuProps.ReplyChecked | src/rp2040/modbus.c:136-143 | a frame with its CRC appended passes the check and goes to the reply switch |
| ModbusRtuProps.EchoSetsFrequency | src/rp2040/modbus.c:175-182 | an echoed set-frequency request records exactly the requested frequency, negative requests included |
| ModbusRtuProps.EchoConverges | src/rp2040/modbus.c:227-229 | after the echo the loop no longer writes the frequency |
| ModbusRtuProps.StatusReplyDecodes | src/rp2040/modbus.c:144-150 | a status reply sets run, reverse and running from bits 0, 2 and 3 and refreshes the status |
| ModbusRtuProps.ReadReplyDecodes | src/rp2040/modbus.c:151-163 | a read-status reply of type 0 or 1 stores its 16-bit value as set or actual frequency and refreshes that reading |
| ModbusRtuProps.CorruptReplyIgnored | src/rp2040/modbus.c:186-188 | a reply whose CRC fails leaves the vfd record as it was |
| ModbusRtuProps.ChoicePriority | src/rp2040/modbus.c:217-242 | the loop polls status when due, reads the set frequency before the actual one, writes only when nothing is due, and is idle iff nothing is due and the inverter runs as requested |
| ModbusRtuProps.ControlChoice | src/rp2040/modbus.c:230-239 | the loop sends STOP only for a spindle that runs but should not, otherwise the requested direction |
| ModbusHuanyang.Plan | src/rp2040/modbus_huanyang.c:132-143 | the run and direction requests are stored only once no reading is due |
| ModbusHuanyang.Receive | src/rp2040/modbus_huanyang.c:60-122 | the reply bytes land in the command buffer and the record is decoded and the failures counted |
| ModbusHuanyang.Exchange | src/rp2040/modbus_huanyang.c:131-159 | the loop body receives, plans and sends the request the priority picks, or sends nothing |
| ModbusHuanyang.Loop | src/rp2040/modbus_huanyang.c:124-171 | without configuration nothing changes; without a reply to read only the request and freshness change; else the exchange runs; the freshness flags are always recorded |
| ModbusHuanyang.DueDefersCommand | src/rp2040/modbus_huanyang.c:132-143 | while a reading is due the loop polls and does not yet store the run request |
| ModbusHuanyang.WritesOnMismatch | src/rp2040/modbus_huanyang.c:141-158 | with nothing due the loop writes iff the set frequency or the run state differs from the request |
| ModbusHuanyang.CorruptReplyCounted | src/rp2040/modbus_huanyang.c:115-118 | a reply whose CRC fails counts one CRC error and changes nothing else |
| ModbusHuanyang.SilenceCounted | src/rp2040/modbus_huanyang.c:119-121 | no reply counts one unanswered request iff a request was outstanding |
| ModbusHuanyang.UnknownTypeCounted | src/rp2040/modbus_huanyang.c:97-99 | a read-status reply of a type other than 0 to 3 is counted as unknown and changes nothing else |
| ModbusFuling.Reply | src/rp2040/modbus_fuling.c:64-95 | the reply switch changes only the fields it decodes, and nothing when it does not recognise the reply |
| ModbusFuling.Receive | src/rp2040/modbus_fuling.c:53-103 | the reply is decoded and the failures counted, and no request is outstanding afterwards |
| ModbusFuling.Outcome | src/rp2040/modbus_fuling.c:53-103 | no byte means no reply, bytes with a bad CRC mean a CRC error, and a decoded reply changes only the fields it decodes, nothing when it is not recognised |
| ModbusFuling.Exchange | src/rp2040/modbus_fuling.c:124-153 | the loop body receives and makes the register access the priority picks, or none |
| ModbusFuling.Choice | src/rp2040/modbus_fuling.c:125-153 | the state is read exactly when it is due; a speed write carries Rate of the request; a control write happens only on a run or direction mismatch and is STOP exactly for a running spindle that should not run; nothing is sent exactly when nothing is due and the speed is within one tenth of a hertz |
| ModbusFuling.Loop | src/rp2040/modbus_fuling.c:105-165 | without configuration nothing changes; during a pause only the cycle, request and pause count change; else the exchange runs; freshness is recorded with one reading for both frequencies |
| ModbusFuling.RateRoundTrip | src/rp2040/modbus_fuling.c:136-138 | a non-negative request comes back exactly from the speed setting the loop writes |
| ModbusFuling.Rate | src/rp2040/modbus_fuling.c:136-138 | the speed setting is 5/4 of the request to within half a step, rounding as C's truncating division does on either sign |
| ModbusFuling.SettledSpeed | src/rp2040/modbus_fuling.c:136-141 | once the inverter reports the requested frequency the loop writes only the control register, if anything |
| ModbusFuling.StateReplyDecodes | src/rp2040/modbus_fuling.c:67-73 | a two-byte state reply sets run, direction and running from the state word's low byte |
| ModbusFuling.FreqReplyDecodes | src/rp2040/modbus_fuling.c:74-79 | a four-byte reply stores the set and actual frequencies high byte first and refreshes them |
| ModbusFuling.WriteAckAccepted | src/rp2040/modbus_fuling.c:85-91 | the echo of a register write is accepted and changes nothing |
| ModbusWeiken.Reply | src/rp2040/modbus_weiken.c:34-82 | the reply switch changes only the fields it decodes, and nothing when it does not recognise the reply |
| ModbusWeiken.Rate | src/rp2040/modbus_weiken.c:129-131 | the speed setting is 5/2 of the request, truncated as C divides, clamped to -10000..10000 |
| ModbusWeiken.Report | src/rp2040/modbus_weiken.c:140-149 | not ready unless both readings are fresh, else the actual frequency read as unsigned and signed by the direction, running or not |
| ModbusWeiken.Receive | src/rp2040/modbus_weiken.c:23-90 | the reply is decoded and the failures counted, and no request is outstanding afterwards |
| ModbusWeiken.Outcome | src/rp2040/modbus_weiken.c:23-90 | no byte means no reply, bytes with a bad CRC mean a CRC error, and a decoded reply changes only the fields it decodes, nothing when it is not recognised |
| ModbusWeiken.Exchange | src/rp2040/modbus_weiken.c:111-138 | the loop body receives and makes the register access the priority picks, or none |
| ModbusWeiken.Choice | src/rp2040/modbus_weiken.c:112-138 | the control word is written exactly when the status is due, and is STOP exactly when no run is commanded; nothing is sent exactly when nothing is due and the speed is within one tenth of a hertz |
| ModbusWeiken.Loop | src/rp2040/modbus_weiken.c:92-150 | without configuration nothing changes; during a pause only the cycle, request and pause count change; else the exchange runs; freshness is recorded |
| ModbusWeiken.RateRoundTrip | src/rp2040/modbus_weiken.c:129-133 | below the clamp a request comes back exactly from the setting the loop writes |
| ModbusWeiken.ReadBackAgrees | src/rp2040/modbus_weiken.c:47 | the inverter's report of a setting reads back as the frequency the loop compares against |
| ModbusWeiken.SettledSpeed | src/rp2040/modbus_weiken.c:129-135 | once the inverter reports the setting the loop wrote, it stops writing the speed, clamped or not |
| ModbusWeiken.ControlAckRefreshes | src/rp2040/modbus_weiken.c:58-65 | the echo of a control-word write refreshes the status: the spindle runs unless STOP was written |
| RpPio.DivRoundClosestNearest | src/rp2040/pio.c:13-16 | when n + d/2 does not wrap, divRoundClosest is the nearest quotient, an exact half rounding up |
| RpPio.DivRoundClosest | src/rp2040/pio.c:13-16 | the result is the quotient of n + d/2 by d, where that sum is taken modulo 2^32 |
| RpPio.WithinHalf | src/rp2040/pio.c:15 | a multiple lying within one divisor below n + d/2 lies within half a divisor of n |
| RpPio.LastDrained | src/rp2040/pio.c:121-127 | the achieved position is the last of at most four FIFO values read, or the configured one when the FIFO is empty |
| RpPio.DrainFifo | src/rp2040/pio.c:121-127 | the drain loop yields the last of at most four counter values, or the value it started with |
| RpPio.StepCount | src/rp2040/pio.c:144 | the step count is the magnitude of the velocity, INT32_MIN included (read as 2^31) |
| RpPio.MinVelocityDividesByZero | src/rp2040/pio.c:148-151 | for the velocity INT32_MIN the divisor requested_step_count * 2 wraps to zero |
| RpPio.StepLenBounds | src/rp2040/pio.c:146-156 | the step length is zero iff there are no steps, else at least one tick; below the wrap it is divRoundClosest less the overhead, floored at one |
| RpPio.StepLen | src/rp2040/pio.c:146-156 | the step length is zero exactly when there are no steps, and at least one tick otherwise |
| RpPio.OverheadOff | src/rp2040/pio.c:150-151 | a quotient less the overhead, in uint32_t read back as int32_t, is the difference when positive and otherwise not positive |
| RpPio.DivBelow | src/rp2040/pio.c:151 | a quotient by at least two is at most half the dividend |
| RpPio.StepLenTicks | src/rp2040/pio.c:146-156 | the step length computation yields StepLen for the step count |
| RpPio.Velocity | src/rp2040/pio.c:136-141 | the position controller's output is commanded when a position is requested, else the requested velocity |
| RpPio.Command | src/rp2040/pio.c:143-160 | the direction sent is velocity > 0 and the step length is the one for the velocity's magnitude |
| RpPio.StepGenerator.constructor | src/rp2040/pio.c:83-85 | the static counters and last_pos start at zero |
| RpPio.StepGenerator.DoSteps | src/rp2040/pio.c:82-177 | with no update nothing changes and 0 is returned; else the command for the chosen velocity is sent, the feedback written back, last_pos[axis] becomes the achieved position, and the counters advance |
| RpPio.Velocities | src/rp2040/pio.c:162-163 | successive counter readings of one axis give one achieved velocity per step between them |
| RpPio.VelocitiesReplay | src/rp2040/pio.c:162-163 | replaying the achieved velocities with uint32_t wrap from the first reading reaches the last, however far the counter wrapped |
| PicoStepper.Target | pico_stepper/pico_stepper.c:88-105 | steppers 0-3 drive pio0 with sm = stepper, steppers 4-7 pio1 with sm = stepper - 4 |
| PicoStepper.MovedBack | pico_stepper/pico_stepper.c:125-129 | moving forwards and back by the same count, with uint wrap, returns to the start |
| PicoStepper.ModBackForth | pico_stepper/pico_stepper.c:126-128 | adding and subtracting a count modulo 2^32 cancel |
| PicoStepper.PioWords | pico_stepper/pico_stepper.c:118-140 | the state machine gets the direction, the step length raised to the minimum less 9, and the step count less one |
| PicoStepper.StepLenFor | pico_stepper/pico_stepper.c:149 | the step length is the time slice divided by |diff|, rounded down |
| PicoStepper.Steppers.constructor | pico_stepper/pico_stepper.c:15-36 | all eight positions start at UINT_MAX/2 and all minimum step lengths at 1000 |
| PicoStepper.Steppers.SendPioSteps | pico_stepper/pico_stepper.c:80-143 | no steps or a step length of at most 9 changes nothing and returns the position; otherwise the position moves by the count in the direction, mod 2^32, the PIO words are sent and the new position returned |
| PicoStepper.Steppers.SetRelativePosition | pico_stepper/pico_stepper.c:145-156 | steps |diff| over the time slice, forwards iff diff > 0, with the outcome of send_pio_steps |
| PicoStepper.Steppers.SetAbsolutePosition | pico_stepper/pico_stepper.c:158-168 | an accepted request leaves get_absolute_position at new_position, however the counter wraps; a refused one changes nothing |
| SenderConfig.Applied | sender/config.c:92-104 | each field passed replaces the stored one and each field not passed stays |
| SenderConfig.Read | sender/config.c:125-138 | get_axis returns the flag, overwrites the caller's variables only when it was set, and clears it |
| SenderConfig.UpdateThenRead | sender/config.c:79-139 | an update followed by a read hands over the updated values and the flag 1 |
| SenderConfig.ReadTwice | sender/config.c:113-139 | a second read with no update between returns 0 and leaves the caller's variables alone |
| SenderConfig.Config.constructor | sender/config.c:14-71 | every axis starts with its flag clear at UINT_MAX/2, minimum step length 50 and acceleration 200 |
| SenderConfig.Config.UpdateAxis | sender/config.c:79-110 | an axis at or beyond MAX_AXIS is ignored; otherwise the passed fields are written and the flag set to 1 |
| SenderConfig.Config.GetAxis | sender/config.c:113-139 | get_axis does what Read specifies and clears only that axis's flag |
| SenderPio.AxisToPio | sender/pio.c:59-78 | axes 0-3 map to pio0 with sm = axis, 4-7 to pio1 with sm = axis - 4, and any other axis to nothing |
| SenderPio.Trunc | sender/pio.c:86-94 | a floating value converted to an integer is truncated toward zero |
| SenderPio.GainsAreZero | sender/pio.c:85-88 | the integral and derivative gains, written as fractions into int32_t, are zero |
| SenderPio.Clamp | sender/pio.c:95-99 | the velocity is clamped to [-100, 100] and unchanged inside it |
| SenderPio.PidVelocity | sender/pio.c:80-102 | pid's velocity always lies within [-100, 100] |
| SenderPio.PidIsTenth | sender/pio.c:80-102 | pid's velocity is a tenth of the position error truncated toward zero and clamped, whatever the integral |
| SenderPio.StepLenShape | sender/pio.c:153-159 | the step length is the half period less 15 exactly when that is at least 3, and 1 otherwise |
| SenderPio.StepLen | sender/pio.c:153-159 | a step length is 1 or at least 3 |
| SenderPio.DivAtMost | sender/pio.c:154 | a quotient by a positive divisor is at most the dividend |
| SenderPio.OverheadOff | sender/pio.c:154 | the overhead taken off a half period below 2^31, in uint32_t read as int32_t, is plain subtraction |
| SenderPio.VelocityMatchesAdvance | sender/pio.c:169-172 | the reported velocity added to the old position in uint32_t gives the new position |
| SenderPio.LimitedBounds | sender/pio.c:219-240 | away from int32_t overflow, the applied velocity never reverses the last one, differs from it by at most the limit, and is the requested one when that is within the limit and does not reverse |
| SenderPio.StepLoop.constructor | sender/pio.c:81-107 | the static integrals, last velocities and counters start at zero |
| SenderPio.StepLoop.Pid | sender/pio.c:80-102 | the error is the position difference read as int32_t; it is added to the axis's integral and the clamped velocity returned |
| SenderPio.StepLoop.DoSteps | sender/pio.c:104-177 | with no update nothing changes and 0 is returned; else the PID velocity sets direction and step length and the achieved steps move the position |
| SenderPio.StepLoop.DoStepsNope | sender/pio.c:179-283 | with no update nothing changes; else the position difference, limited in acceleration and reversal, becomes the last velocity and sets the step length above two steps |
| Sender.Strtol | sender/sender.c:168 | strtol of a digit run is its decimal value, saturated at LONG_MAX |
| Sender.ScanFrom | sender/sender.c:156-186 | the tokenizer keeps at most four numbers, only adds to those read, and asks for help only before any number |
| Sender.Dispatch | sender/sender.c:188-244 | four numbers send steps, three set a position, one reports a stepper, none reports all, two or more than four are refused, '?' shows help, and a fifth number or unexpected character drops the line |
| Sender.ScanNumberAt | sender/sender.c:167-176 | a number followed by a non-digit is read as one number |
| Sender.ScanShift | sender/sender.c:160-186 | the tokenizer reads the rest of a line the same way after any prefix it has passed |
| Sender.NumberThenSeparator | sender/sender.c:160-176 | a number and a separator are read as that number, then the rest of the line |
| Sender.NumberAtEnd | sender/sender.c:160-186 | a number that ends the line is read as the last one |
| Sender.ThreeNumbersSetPosition | sender/sender.c:202-203 | "a:b:c" sets the absolute position of stepper a to b over c microseconds |
| Sender.FiveNumbersDropped | sender/sender.c:169-175 | a fifth number drops the line |
| Sender.CString | sender/sender.c:160 | the text of a buffer is everything before its first NUL |
| Sender.Clear | sender/sender.c:245 | memset leaves every byte of the buffer NUL |
| Sender.ProcessBufferHuman | sender/sender.c:154-246 | the action taken is the one the tokenizer and dispatch give for the buffer's text, and the buffer is cleared on every path |
| Sender.Human | sender/sender.c:156-244 | an empty line reports every axis, and a line starting with ? shows the help |
| Sender.UartLineBounded | sender/sender.c:258-260 | the line never fills its buffer and holds printable characters only, whatever is typed |
| Sender.UartActionPerReturn | sender/sender.c:254-257 | each carriage return hands over exactly one line |
| Sender.CStringAt | sender/sender.c:253 | the text of a buffer whose first NUL is at n is its first n characters |
| Sender.TerminatedText | sender/sender.c:253 | a buffer terminated at n holds n characters of text |
| Sender.Strlen | sender/sender.c:253 | strlen is the position of the first NUL |
| Sender.UartChar | sender/sender.c:253-261 | one character of get_uart's loop does what the line step specifies and keeps the buffer terminated |
| Sender.UartStep | sender/sender.c:253-261 | exactly a carriage return hands over one line; any other character keeps the line or appends one character to it |
| Sender.GetUart | sender/sender.c:248-266 | the line and the actions taken are those of the line model run over the characters read |
| Sender.UartRun | sender/sender.c:248-266 | no more lines are handed over than characters read |
| Sender.Walk | sender/sender.c:103-151 | every call made names a valid target |
| Sender.CallsAtGroupEnds | sender/sender.c:140-149 | there are never more calls than entries with sequence number 0 |
| Sender.GroupApplied | sender/sender.c:127-149 | a time window and a position for one target closed by sequence 0 make one call |
| Sender.MixedTargetsAbort | sender/sender.c:112-117 | a group whose entries name different targets aborts the buffer |
| Sender.WalkEntry | sender/sender.c:104-150 | at one entry the walk aborts on a target mismatch or invalid target, or makes the call of the group it closes before the calls of the rest |
| Sender.ProcessBufferMachine | sender/sender.c:91-152 | the loop makes exactly the calls the walk specifies and reports whether it reached the end |
| Graphing.Split | test_client/graphing.py:24 | str.split always gives at least one piece |
| Graphing.SplitJoin | test_client/graphing.py:24 | the pieces of a split joined again give the string back, and no piece holds the separator |
| Graphing.NulStart | test_client/graphing.py:25 | the leading NULs strip('\x00') removes end at the first other character |
| Graphing.NulEnd | test_client/graphing.py:25 | the trailing NULs strip('\x00') removes start after the last other character |
| Graphing.StripNulSlice | test_client/graphing.py:25-27 | strip removes only NULs at the ends, is empty iff the entry is all NULs, and keeps a slice that neither starts nor ends with one |
| Graphing.TrimSpace | test_client/graphing.py:29 | the white space int() ignores is taken only from the ends |
| Graphing.ParseShow | test_client/graphing.py:29 | int() reads back what str() writes |
| Graphing.Check | test_client/graphing.py:30-43 | after an entry last_count is its count |
| Graphing.CheckReports | test_client/graphing.py:30-35 | a count not above the last is reported out of order, one more than a successor is reported as a gap, and only a successor passes without complaint |
| Graphing.CheckKeepsProgres | test_client/graphing.py:34-39 | progres grows by one only for a successor, is reset once it passes 100, and stays within 0..100 |
| Graphing.FirstEntry | test_client/graphing.py:18-33 | from the starting globals a first count of 1 is in sequence and a first count of 0 is out of order |
| Graphing.Items | test_client/graphing.py:24 | there is one entry per piece of the split on '\|' |
| Graphing.ItemOf | test_client/graphing.py:25-29 | an entry is blank exactly when it holds nothing but NULs |
| Graphing.Take | test_client/graphing.py:25-43 | a blank entry changes nothing, a malformed one raises and changes nothing, and a record is checked, printed last, and becomes last_count |
| Graphing.ParseStops | test_client/graphing.py:24-43 | parse_data raises iff some entry is malformed |
| Graphing.Parse | test_client/graphing.py:24-43 | what parse_data prints only extends what was printed before |
| Graphing.ParseRows | test_client/graphing.py:24-43 | every record before the first malformed entry is printed once, in order, and last_count is the last one's count |
| Graphing.Records | test_client/graphing.py:24-43 | the records of a read are all records |
| Graphing.RecordsCons | test_client/graphing.py:24 | the records of a read are those of its first entry followed by those of the rest |
| Graphing.RowsAppend | test_client/graphing.py:41 | the rows printed by two stretches of a read are those of each in turn |
| Graphing.CheckPrintsNoRow | test_client/graphing.py:30-39 | the sequence check prints no data row |
| Graphing.ItemOfFields | test_client/graphing.py:25-29 | an entry "count,axis,key,value" of comma-free fields is read as a record of those fields |
| Graphing.JoinedEnds | test_client/graphing.py:25 | a joined entry starts with its first field's first character and does not end in NUL |
| Graphing.ItemOfRecord | test_client/graphing.py:28-29 | an entry whose first field reads as an integer is a record of its first four fields |
| Graphing.SplitFields | test_client/graphing.py:28 | four comma-free fields joined by commas split back into them |
| Graphing.StripNulKeeps | test_client/graphing.py:25 | strip('\x00') keeps a string that neither starts nor ends with NUL |
| Graphing.NoComma | test_client/graphing.py:28 | the decimal text of a count holds no comma |
| Graphing.SplitNone | test_client/graphing.py:28 | a string without the separator splits into itself |
| Graphing.SplitCons | test_client/graphing.py:28 | a comma-free piece followed by a comma comes off first |
| Graphing.Reader.constructor | test_client/graphing.py:18-19 | the module starts with last_count and progres zero |
| Graphing.Reader.ParseData | test_client/graphing.py:20-43 | parse_data prints the events and updates the globals entry by entry as Parse specifies, and raises where it does |
| Graphing.Reader.TakeItem | test_client/graphing.py:25-43 | one entry of the loop does what Take specifies |
| Graphing.Reader.CheckCount | test_client/graphing.py:30-43 | the sequence check of one count prints and updates as Check specifies |
| PioHex.TokenEnd | src/rp2040/convert_to_emulator_hex.py:31 | a greedy non-space run stops at a white space character or the end |
| PioHex.BlankEnd | src/rp2040/convert_to_emulator_hex.py:32 | a run of spaces stops at a non-space or the end |
| PioHex.SearchProgram | src/rp2040/convert_to_emulator_hex.py:31 | the program pattern captures a non-empty name |
| PioHex.SearchInstruction | src/rp2040/convert_to_emulator_hex.py:32 | the instruction pattern captures four hex digits |
| PioHex.SearchDefine | src/rp2040/convert_to_emulator_hex.py:33-34 | a define pattern captures a non-empty run of digits |
| PioHex.EndDigits | src/rp2040/convert_to_emulator_hex.py:33-34 | `(\d+)$` captures a non-empty run of digits |
| PioHex.Search | src/rp2040/convert_to_emulator_hex.py:48 | a wrap pattern's group is a non-empty run of digits |
| PioHex.Find | src/rp2040/convert_to_emulator_hex.py:47-49 | what the four patterns find in a line are their captures |
| PioHex.FindAll | src/rp2040/convert_to_emulator_hex.py:45-49 | each line of the input is searched on its own, in order |
| PioHex.HexDigits | src/rp2040/convert_to_emulator_hex.py:64 | hex() writes a non-empty run of lower-case hex digits |
| PioHex.HexChar | src/rp2040/convert_to_emulator_hex.py:64 | each character hex() writes is a hex digit |
| PioHex.SearchExclusive | src/rp2040/convert_to_emulator_hex.py:31-34 | a line matches at most one of the four patterns |
| PioHex.DefineEnds | src/rp2040/convert_to_emulator_hex.py:33-34 | a define line starts with '#' and its name ends in the last character of the suffix |
| PioHex.FindExclusive | src/rp2040/convert_to_emulator_hex.py:47-52 | what is found in one line is at most one capture |
| PioHex.FeedEffect | src/rp2040/convert_to_emulator_hex.py:47-52 | trying the four patterns on a line (FeedFrom) appends what it emits and sets what it defines |
| PioHex.LineDropped | src/rp2040/convert_to_emulator_hex.py:49-52 | a line that matches nothing or defines a wrap writes nothing, and one without a wrap definition leaves the wrap globals alone |
| PioHex.FindAllExclusive | src/rp2040/convert_to_emulator_hex.py:45-52 | every line of an input matches at most one pattern |
| PioHex.ConvertStep | src/rp2040/convert_to_emulator_hex.py:46-52 | one line of the outer loop appends its output and updates the globals |
| PioHex.ConvertEmits | src/rp2040/convert_to_emulator_hex.py:43-52 | the output of the whole loop (ConvertFrom) is the output of each input line in turn, whatever the globals were |
| PioHex.Last | src/rp2040/convert_to_emulator_hex.py:22-28 | the value of a global is the group of some matching line, digits for the wrap values |
| PioHex.ConvertKeepsLast | src/rp2040/convert_to_emulator_hex.py:14-28 | after the whole input each global holds the group of the last line that set it, or what it held before |
| PioHex.UnsetWrap | src/rp2040/convert_to_emulator_hex.py:64 | with no wrap definitions the closing command carries -0x1 for both values |
| PioHex.TokenEndAt | src/rp2040/convert_to_emulator_hex.py:31 | a non-space run followed by white space ends there |
| PioHex.ProgramLine | src/rp2040/convert_to_emulator_hex.py:31 | the array declaration of a program names the program |
| PioHex.InstructionLine | src/rp2040/convert_to_emulator_hex.py:32 | spaces, `0x`, four hex digits and a comma give the four digits |
| PioHex.BlankEndAt | src/rp2040/convert_to_emulator_hex.py:32 | a run of spaces followed by another character ends there |
| PioHex.DefineLine | src/rp2040/convert_to_emulator_hex.py:33-34 | a wrap definition as pioasm writes it, newline included, gives its number and the callback stores it |
| PioHex.DefineTail | src/rp2040/convert_to_emulator_hex.py:33-34 | after a define name ending in the suffix and one space, the rest of the line decides the match |
| PioHex.NoSpaceConcat | src/rp2040/convert_to_emulator_hex.py:31 | two space-free strings joined hold no space |
| PioHex.HexDigitValue | src/rp2040/convert_to_emulator_hex.py:64 | a hex digit's value is below 16 |
| PioHex.HexDigitsValue | src/rp2040/convert_to_emulator_hex.py:64 | hex() writes a number that reads back as itself |
| PioHex.Script.constructor | src/rp2040/convert_to_emulator_hex.py:10-12 | the globals start as an empty name and -1 for both wrap values |
| PioHex.Script.Callback | src/rp2040/convert_to_emulator_hex.py:14-28 | each callback stores or returns its group as Call specifies |
| PioHex.Script.FeedLine | src/rp2040/convert_to_emulator_hex.py:47-52 | one line against every pattern in turn does what FeedFrom specifies |
| PioHex.Script.Convert | src/rp2040/convert_to_emulator_hex.py:43-64 | main produces the lines in the order found and closes with the wrap command of the final globals |
| LegacyClientUdp.AllDigits | test_client/udp.c:40-50 | all_digits returns 1 exactly when every character before the first NUL or newline is a digit or '-', else 0 |
| LegacyClientUdp.Words | test_client/udp.c:191-241 | a message struct is one to three 32-bit words, its type first |
| LegacyClientUdp.FlatCons | test_client/udp.c:249 | the packet words of messages are the first message's words followed by the rest's |
| LegacyClientUdp.FlatFirst | test_client/udp.c:249 | a non-empty packet starts with its first message's words |
| LegacyClientUdp.MessageForPackable | test_client/udp.c:199-241 | store_message builds a message exactly for the types 1 to 9, with the type given and that type's shape |
| LegacyClientUdp.MessageFor | test_client/udp.c:199-241 | a struct filled from the values holds, word by word, the leading values |
| LegacyClientUdp.NextFits | test_client/udp.c:191-252 | a stored message fits the space it was checked against; the only other outcomes are an invalid type or no space, and a known type with 12 bytes left is always stored |
| LegacyClientUdp.Next | test_client/udp.c:191-252 | a stored message holds the leading values, and only a type outside 1..9 is refused as invalid |
| LegacyClientUdp.NextPosition | test_client/udp.c:205-210 | an absolute position message is stored whenever there is room |
| LegacyClientUdp.Sevens | test_client/udp.c:223-227 | k bare messages of type 7 are k value lists of that type |
| LegacyClientUdp.SevensAsWritten | test_client/udp.c:243-249 | as written the space checked stays at its first value while the packet pointer moves one word per bare message |
| LegacyClientUdp.StoreOverflows | test_client/udp.c:248 | 257 bare messages on one line fill the 256-word packet and the next copy goes past its end, since the space never shrinks |
| LegacyClientUdp.SevensOverflow | test_client/udp.c:243-249 | once *packet reaches the end of the packet, further bare messages copy past it |
| LegacyClientUdp.ClearOverflows | test_client/udp.c:303 | once one message is stored, the clear of a refused line, from the moved pointer, writes past the packet |
| LegacyClientUdp.StrtolAt | test_client/udp.c:298 | strtol stays within the line and leaves its end pointer where it was only for a '-' with no digit after it |
| LegacyClientUdp.RunOf | test_client/udp.c:298 | a run of digits laid out in a line ends at the first non-digit after it |
| LegacyClientUdp.StrtolReadsDigits | test_client/udp.c:298 | strtol reads back a number written in decimal and stops after its digits |
| LegacyClientUdp.StrtolReadsNegative | test_client/udp.c:298 | strtol reads back a negative number, converted to uint32_t |
| LegacyClientUdp.OneshotStore | test_client/udp.c:278-293 | at ',' or '\n' the message is stored, and the line ends at '\n' or goes on at ','; a refused message exits |
| LegacyClientUdp.OneshotSkip | test_client/udp.c:287-296 | the tokenizer skips ':' and white space |
| LegacyClientUdp.OneshotNumber | test_client/udp.c:297-306 | a number fills the next value, and a fifth refuses the line |
| LegacyClientUdp.OneshotOther | test_client/udp.c:307-311 | any other character refuses the line |
| LegacyClientUdp.Take | test_client/udp.c:287-311 | any other character is skipped, read as a value (always moving on or filling one more value), or refuses the line, as the tokenizer specifies |
| LegacyClientUdp.OneshotPackable | test_client/udp.c:277-312 | the messages stored are well-shaped and the tokenizer never overflows the packet |
| LegacyClientUdp.Oneshot | test_client/udp.c:277-312 | the tokenizer only appends to the stored messages, and every message it stores is well-shaped |
| LegacyClientUdp.PackableSnoc | test_client/udp.c:280 | one more well-shaped message keeps the stored messages well-shaped |
| LegacyClientUdp.FlatSnoc | test_client/udp.c:249 | the packet words after one more message are the old words followed by its words |
| LegacyClientUdp.OneshotNegative | test_client/udp.c:297-300 | "3:0:-10" stores a relative move whose int32_t field reads back as -10 |
| LegacyClientUdp.NegativeMiddle | test_client/udp.c:297-306 | reading "-10" as the third value moves past it |
| LegacyClientUdp.NegativeHead | test_client/udp.c:287-306 | reading "3:0:" fills the first two values |
| LegacyClientUdp.LoneMinus | test_client/udp.c:297-305 | a lone '-' converts to 0 without moving on, so it is read as every value in turn and the line refused as having too many values |
| LegacyClientUdp.RefusedAfterMessage | test_client/udp.c:307-310 | "3:0:10, x" stores three words, then refuses 'x', and the clear as written starts three words in and runs past the packet |
| LegacyClientUdp.RefusedMiddle | test_client/udp.c:297-306 | reading "10" as the third value moves past it |
| LegacyClientUdp.FlatOne | test_client/udp.c:249 | one message's packet words are its own words |
| LegacyClientUdp.RefusedHead | test_client/udp.c:287-306 | reading "3:0:" fills the first two values |
| LegacyClientUdp.RefusedType | test_client/udp.c:297-306 | reading "3" fills the type |
| LegacyClientUdp.RefusedAxis | test_client/udp.c:287-306 | reading "0" after ':' fills the axis |
| LegacyClientUdp.RefusedTail | test_client/udp.c:278-311 | ", x" stores the message read so far and then refuses 'x' |
| LegacyClientUdp.Packet.constructor | test_client/udp.c:254 | the packet is the memory given |
| LegacyClientUdp.Packet.StoreMessage | test_client/udp.c:191-252 | with the space taken off *packet_space: an invalid type or a full packet exits with nothing copied; otherwise the message is copied at *packet, which moves past it, and the space shrinks by its size, so the packet is never written past |
| LegacyClientUdp.Packet.Pack | test_client/udp.c:280-292 | storing one more message lays out the messages stored so far followed by it from the start of the cleared packet |
| LegacyClientUdp.Packet.PackPosition | test_client/udp.c:384-390 | the position message of one axis is stored after the reports of the axes before it |
| LegacyClientUdp.Packet.Emit | test_client/udp.c:278-293 | at ',' or '\n' the packet keeps the layout of all messages stored, the space and the bytes stored add up to BUFSIZE - 4, and an exit changes nothing |
| LegacyClientUdp.Packet.PopulateDataOneshot | test_client/udp.c:254-315 | the outcome is the tokenizer's; a refused line clears the packet from its start and returns 0; otherwise the packet holds the messages stored, from its start, and the size returned is their bytes |
| LegacyClientUdp.PackedNext | test_client/udp.c:249 | writing one more message at *packet keeps the layout of all messages stored |
| LegacyClientUdp.StepCalm | test_client/udp.c:357-365 | with bounded kicks a calm axis stays calm: acceleration and velocity are the truncated decays plus what is added, with no wrap, and the position moves by the velocity mod 2^32 |
| LegacyClientUdp.Step | test_client/udp.c:357-365 | with no acceleration and no kick the acceleration stays zero, and an axis at rest stays where it is |
| LegacyClientUdp.AccelStep | test_client/udp.c:357-359 | the acceleration's int32_t update does not wrap for bounded kicks |
| LegacyClientUdp.VelocityStep | test_client/udp.c:361-363 | the velocity's int32_t update does not wrap for a bounded acceleration |
| LegacyClientUdp.RunCalm | test_client/udp.c:326-391 | from the start any run of bounded kicks keeps every axis calm |
| LegacyClientUdp.Run | test_client/udp.c:351-365 | an axis at rest with no kicks stays where it is for any number of calls |
| LegacyClientUdp.StartCalm | test_client/udp.c:333-338 | the axes start calm |
| LegacyClientUdp.DecayTruncates | test_client/udp.c:357-362 | C's truncating division decays a small negative acceleration or velocity to zero, as a small positive one |
| LegacyClientUdp.StepAll | test_client/udp.c:351-391 | every axis is stepped once |
| LegacyClientUdp.StepAllAt | test_client/udp.c:351-365 | axis i is stepped with its own kick |
| LegacyClientUdp.StepAllSnoc | test_client/udp.c:351-365 | stepping one more axis appends it |
| LegacyClientUdp.Reports | test_client/udp.c:384-390 | one three-word position message per axis, in axis order |
| LegacyClientUdp.ReportsSnoc | test_client/udp.c:384-390 | reporting one more axis appends its message |
| LegacyClientUdp.Cleared | test_client/udp.c:346 | the cleared packet keeps its 256 words |
| LegacyClientUdp.ClearedLaid | test_client/udp.c:346-390 | words laid out from the start of the fully cleared packet give the cleared packet with those words |
| LegacyClientUdp.Simulation.constructor | test_client/udp.c:327-331 | the statics start zeroed with first_run set |
| LegacyClientUdp.Simulation.Advance | test_client/udp.c:357-365 | axis k is stepped in place and nothing else changes |
| LegacyClientUdp.Simulation.StepAxis | test_client/udp.c:357-365 | axis k is stepped after the axes before it |
| LegacyClientUdp.Simulation.ReportAxis | test_client/udp.c:351-391 | axis k is stepped with its kick and its 12-byte position message stored after the reports of the axes before it |
| LegacyClientUdp.Simulation.PopulateDataLoop | test_client/udp.c:326-411 | the first call sets the axes up; every axis is stepped once and the cleared packet holds the six position messages, 72 bytes |
| LegacyClientUdp.Simulation.ReportAll | test_client/udp.c:351-391 | the loop over the axes steps each and stores its position into the cleared packet |
| LegacyClientUdp.Decode | test_client/udp.c:431-472 | types 1, 2, 3, 7, 8 and 9 are shown with their size, 4 to 6 and unknown types are not |
| LegacyClientUdp.DisplayData | test_client/udp.c:413-477 | the walk of display_data prints what the function Display specifies; what Display prints is stated by DisplayNext, DisplayStops, DisplayFrom and DisplayPacked |
| LegacyClientUdp.SignedBack | test_client/udp.c:449-450 | the 32 bits of an int32_t read back as int32_t |
| LegacyClientUdp.DisplayNext | test_client/udp.c:431-475 | a packed message of a type shown is printed and the walk moves past it |
| LegacyClientUdp.DisplayStops | test_client/udp.c:452-456 | the walk stops at a packed message of type 4, 5 or 6 |
| LegacyClientUdp.AllShapedOf | test_client/udp.c:191-241 | the messages packed are all well-shaped |
| LegacyClientUdp.FirstRefused | test_client/udp.c:452-456 | the first message display_data refuses lies within the messages, or there is none |
| LegacyClientUdp.ExpectedIs | test_client/udp.c:431-475 | what is printed is the prefix before the first refused message |
| LegacyClientUdp.DisplayFrom | test_client/udp.c:431-475 | the walk over packed messages prints the expected prefix |
| LegacyClientUdp.DisplayPacked | test_client/udp.c:413-477 | what store_message packs, display_data prints back, up to the first message of type 4, 5 or 6, where it stops |
| LegacyClientUdp.RefusedIsFourToSix | test_client/udp.c:452-456 | the message display_data refuses is of type 4, 5 or 6 |
| LegacyClientUdp.ReplyWords | test_client/udp.c:485-521 | a reply type the switch knows has a size of at least one word |
| LegacyClientUdp.DisplayReply | test_client/udp.c:479-527 | the walk of display_reply reads the replies Replies specifies |
| LegacyClientUdp.Replies | test_client/udp.c:479-527 | the walk only appends replies, each starting with its non-zero type word and exactly as long as its type's struct |
| LegacyClientUdp.RepliesRead | test_client/udp.c:483-526 | display_reply prints back exactly the replies laid out before a zero type word |
| LegacyClientUdp.RepliesFrom | test_client/udp.c:483-526 | from any offset the walk reads the replies laid out there up to a zero type word |
| LegacyClientUdpV02.AllDigits | test_client/udp_v0.2.c:36-46 | all_digits returns 1 exactly when every character before the first NUL or newline is a decimal digit, so a '-' is refused |
| LegacyClientUdpV02.Property | test_client/udp_v0.2.c:48-57 | get_property_uint consumes at most the lines given, and a non-zero value consumes at least one; it never returns after a refused last line |
| LegacyClientUdpV02.Console.constructor | test_client/udp_v0.2.c:53 | the terminal holds the lines the user will type |
| LegacyClientUdpV02.Console.GetPropertyUint | test_client/udp_v0.2.c:48-57 | the prompt loop hangs exactly when Property finds no accepted line, and otherwise consumes the lines and returns the value Property gives |
| LegacyClientUdpV02.Console.ReadMessage | test_client/udp_v0.2.c:73-103 | the value prompts after a valid type hang exactly when Read does, and otherwise give Read's message |
| LegacyClientUdpV02.NumberLine | test_client/udp_v0.2.c:48-57 | a line of decimal digits is accepted and read back as its number, modulo 2^32 |
| LegacyClientUdpV02.LineEndAt | test_client/udp_v0.2.c:38 | the scan of all_digits ends at the first newline or NUL |
| LegacyClientUdpV02.LineEndFrom | test_client/udp_v0.2.c:38-44 | from any point before it, the scan ends at the same first newline or NUL |
| LegacyClientUdpV02.EmptyLineIsZero | test_client/udp_v0.2.c:112 | an empty line, or the end of the input, reads as type 0 and ends the packet |
| LegacyClientUdpV02.RefusedLastLineHangs | test_client/udp_v0.2.c:51-54 | a refused last line leaves fgets returning it for ever, so get_property_uint never returns |
| LegacyClientUdpV02.Words | test_client/udp_v0.2.c:60-92 | a message struct is one to three 32-bit words, its type first |
| LegacyClientUdpV02.FlatCons | test_client/udp_v0.2.c:69 | the packet words of messages are the first message's words followed by the rest's |
| LegacyClientUdpV02.FlatFirst | test_client/udp_v0.2.c:69 | a non-empty packet starts with its first message's words |
| LegacyClientUdpV02.Shape | test_client/udp_v0.2.c:113-144 | the message built for a type carries that type |
| LegacyClientUdpV02.Values | test_client/udp_v0.2.c:74-91 | n prompts consume at most the lines given and, when they all return, give n values |
| LegacyClientUdpV02.Read | test_client/udp_v0.2.c:113-140 | the prompts after a valid type consume at most the lines given and make a message of that type |
| LegacyClientUdpV02.Build | test_client/udp_v0.2.c:105-151 | the bytes packed plus the space left always equal the space given, and the messages packed extend those packed so far |
| LegacyClientUdpV02.BuildNext | test_client/udp_v0.2.c:112-147 | type 0 finishes, a type above 9 ends the program, a valid type reads its values and then either ends for lack of space or packs the message and goes on |
| LegacyClientUdpV02.BuildShaped | test_client/udp_v0.2.c:113-144 | every message populate_data packs has the shape of its type |
| LegacyClientUdpV02.ReadPackable | test_client/udp_v0.2.c:113-140 | a message read after a valid type has the shape of its type |
| LegacyClientUdpV02.Writer.constructor | test_client/udp_v0.2.c:198-200 | the packet is the memory given and its space keeps one word for an empty terminating record |
| LegacyClientUdpV02.Writer.Store | test_client/udp_v0.2.c:59-103 | a message larger than the space left is refused and nothing changes; otherwise it is copied at *packet, which moves past it and the space shrinks by its size |
| LegacyClientUdpV02.Writer.Pack | test_client/udp_v0.2.c:59-103 | storing one more message lays out the messages so far followed by it from the start of the cleared space, and bytes packed plus space left stay constant |
| LegacyClientUdpV02.Writer.PopulateData | test_client/udp_v0.2.c:105-151 | the outcome, the space left and the messages laid out from the start of the cleared space are Build's, and the size returned is their bytes |
| LegacyClientUdpV02.PackedNext | test_client/udp_v0.2.c:67-69 | writing one more message at *packet keeps the layout of all messages stored |
| LegacyClientUdpV02.DisplayData | test_client/udp_v0.2.c:153-188 | the walk of display_data prints what Display specifies |
| LegacyClientUdpV02.Display | test_client/udp_v0.2.c:153-188 | the walk only appends messages, all of type 1 or 2, and refuses only a message of another type |
| LegacyClientUdpV02.FirstRefused | test_client/udp_v0.2.c:174-183 | the first message display_data refuses lies within the messages, or there is none |
| LegacyClientUdpV02.DisplayNext | test_client/udp_v0.2.c:160-173 | a packed message of type 1 or 2 is printed and the walk moves past it |
| LegacyClientUdpV02.DisplayStops | test_client/udp_v0.2.c:174-183 | the walk stops at a packed message of any other type |
| LegacyClientUdpV02.DisplayPacked | test_client/udp_v0.2.c:153-188 | what populate_data packs, display_data prints back, up to the first message not of type 1 or 2, where it stops with that type |
| LegacyClientUdpV02.AllShapedOf | test_client/udp_v0.2.c:113-144 | the messages packed all have the shape of their type |
| LegacyClientUdpV02.ExpectedIs | test_client/udp_v0.2.c:157-187 | what is printed is the prefix before the first refused message |
| LegacyClientUdpV02.DisplayFrom | test_client/udp_v0.2.c:157-187 | the walk over packed messages prints the expected prefix |
| ClientUdp.SignedLineAccepted | src/test_client/udp.c:53-63 | all_digits, the same code as in test_client/udp.c, accepts the line typed for any number, with or without a leading minus sign |
| ClientUdp.KindsOfLabels | src/test_client/udp.c:308-377 | with distinct message codes every code reaches its own case of serialize_data's switch |
| ClientUdp.KindOf | src/test_client/udp.c:308-377 | the timing case is reached exactly by MSG_TIMING, and the default exactly by a type matching no case label |
| ClientUdp.Words | src/test_client/udp.c:293-298 | a message struct is one to three 32-bit words, its type first |
| ClientUdp.FlatSnoc | src/test_client/udp.c:385 | the packet words after one more message are the old words followed by its words |
| ClientUdp.MessageFor | src/test_client/udp.c:308-377 | serialize_data refuses exactly the types it does not know; otherwise the struct is the first one, two or three values as they are, one word for MSG_GET_GLOBAL_CONFIG, two for the update rate and three for the others |
| ClientUdp.Next | src/test_client/udp.c:289-388 | with the space taken off *packet_space: a stored message is the one MessageFor builds and fits the space; the only exits are an unknown type and no space; a known type with 12 bytes left is always stored |
| ClientUdp.NextPosition | src/test_client/udp.c:331-339 | an absolute position message is stored whenever there is room |
| ClientUdp.Positions | src/test_client/udp.c:412-427 | the values of the line "4,4,...,4" are k positions of axis 0 |
| ClientUdp.PositionsAsWritten | src/test_client/udp.c:379-385 | as written the space checked stays at its first value while the packet pointer moves three words per position |
| ClientUdp.SerializeAsWritten | src/test_client/udp.c:289-388 | as written, *packet_space never shrinks and *packet moves forward within the packet; a type is refused as invalid exactly when no case label matches it |
| ClientUdp.PositionsOverflow | src/test_client/udp.c:384 | a line of 86 positions fills the 256-word packet and the 86th copy goes past its end, since the space never shrinks |
| ClientUdp.PositionsPast | src/test_client/udp.c:379-385 | once *packet is past the end of the packet the next copy overflows it |
| ClientUdp.OneshotStore | src/test_client/udp.c:412-427 | at ',' or '\n' the message is stored and the values reset, the line ending at '\n'; an unknown type or no space exits with the messages stored before |
| ClientUdp.OneshotSkip | src/test_client/udp.c:421-430 | the tokenizer skips ':' and white space |
| ClientUdp.OneshotNumber | src/test_client/udp.c:431-440 | a number fills the next value, and a fifth refuses the line |
| ClientUdp.OneshotOther | src/test_client/udp.c:441-445 | any other character refuses the line |
| ClientUdp.Store | src/test_client/udp.c:412-427 | at ',' or '\n' the message serialize_data stores fits the space and the tokenizer ends or goes on with it stored; otherwise the line ends with the exit |
| ClientUdp.Take | src/test_client/udp.c:428-445 | any other character is skipped, read as a value (always moving on or filling one more value), or refuses the line, as the tokenizer specifies |
| ClientUdp.RefusedAfterPosition | src/test_client/udp.c:437-443 | "4:0:10, x" stores one three-word position, then refuses 'x', and the clear from the moved packet pointer runs past the packet |
| ClientUdp.RefusedHead | src/test_client/udp.c:421-432 | reading "4:" fills the type |
| ClientUdp.RefusedMiddle | src/test_client/udp.c:421-440 | reading "0:10" fills the axis and the value |
| ClientUdp.RefusedZero | src/test_client/udp.c:421-440 | reading "0:" fills the axis |
| ClientUdp.RefusedTen | src/test_client/udp.c:431-440 | reading "10" fills the third value |
| ClientUdp.TenAt | src/test_client/udp.c:432 | strtol reads 10 and stops after it |
| ClientUdp.RefusedTail | src/test_client/udp.c:412-445 | ", x" stores the position read so far and then refuses 'x' |
| ClientUdp.PopulateDataOneshot | src/test_client/udp.c:390-449 | the outcome is the tokenizer's; a refused line clears the packet from its start and returns 0; otherwise the packet holds the messages stored and the size returned is their bytes, at most BUFSIZE - 4 |
| ClientUdp.Oneshot | src/test_client/udp.c:412-445 | the tokenizer only appends to the stored messages, and every message it stores has a type some case label matches |
| ClientUdp.Frame | src/test_client/udp.c:178-187 | a log frame is 10 bytes |
| ClientUdp.FrameRoundTrip | src/test_client/udp.c:178-187 | a frame gives back the counter, axis, data type and value it was made from |
| ClientUdp.Stream | src/test_client/udp.c:163-195 | the log of n entries is 10 n bytes |
| ClientUdp.StreamFrames | src/test_client/udp.c:178-194 | the log can be cut every 10 bytes: frame i holds entry i and a counter i past the first, modulo 2^32 |
| ClientUdp.StreamSnoc | src/test_client/udp.c:186-194 | one more entry appends its frame with the next counter |
| ClientUdp.WriterStep | src/test_client/udp.c:178-194 | logging one more entry appends its frame and counts it |
| ClientUdp.LogWriter.constructor | src/test_client/udp.c:164-167 | nothing is logged and the FIFO is not open |
| ClientUdp.LogWriter.LogDataWrite | src/test_client/udp.c:163-195 | a failed fopen returns with nothing logged; otherwise the frame is appended, the call counted and the FIFO closed after the counter reaches a multiple of 500 |
| ClientUdp.Record | src/test_client/udp.c:218-224 | a record from the graphing tool is 8 bytes |
| ClientUdp.ReadValues | src/test_client/udp.c:218-228 | log_data_read builds four values |
| ClientUdp.ReadRecord | src/test_client/udp.c:223-228 | a whole record becomes the values data type plus MSG_SET_AXIS_PID_KP, axis 1, the gain's bits, 0 |
| ClientUdp.GainRecord | src/test_client/udp.c:226-236 | data type 0 is sent as the proportional gain message of axis 1 carrying the gain's bits |
| ClientUdp.LogReader.constructor | src/test_client/udp.c:199-208 | the counter is zero and the FIFO not open |
| ClientUdp.LogReader.LogDataRead | src/test_client/udp.c:198-244 | an open that gives 0 returns with nothing sent; otherwise the call is counted, the FIFO closed after a multiple of 500, and a read that gets bytes sends the message serialize_data builds, or exits on an unknown type |
| ClientUdp.Initials | src/test_client/udp.c:512-528 | there is one swing per axis |
| ClientUdp.TurnBounded | src/test_client/udp.c:554-569 | a turned axis stays between axis_start and its destination and moves by its speed toward the end it heads for, stopping there, with no uint32_t wrap |
| ClientUdp.Turn | src/test_client/udp.c:553-569 | a pass keeps the period, speed and destination, and leaves an axis going up at or below its destination and one going down at or above axis_start |
| ClientUdp.InitialBounded | src/test_client/udp.c:512-528 | every axis starts within its bounds |
| ClientUdp.TurnAll | src/test_client/udp.c:553-580 | every axis is turned once |
| ClientUdp.TurnAllAt | src/test_client/udp.c:553-569 | axis i is turned on its own and stays within bounds |
| ClientUdp.TurnAllSnoc | src/test_client/udp.c:553-569 | turning one more axis appends it |
| ClientUdp.Reports | src/test_client/udp.c:571-577 | one three-word position message per axis |
| ClientUdp.ReportsSnoc | src/test_client/udp.c:571-577 | reporting one more axis appends its message |
| ClientUdp.Stored | src/test_client/udp.c:517-522 | stores into an array keep its length |
| ClientUdp.SpeedsOverflow | src/test_client/udp.c:517-522 | the init block's fifth speed store is past the end of the four-element axis_speed, and the first four give the speeds of the four axes |
| ClientUdp.Oscillator.constructor | src/test_client/udp.c:500-507 | the statics start zeroed |
| ClientUdp.Oscillator.Start | src/test_client/udp.c:510-533 | when run_count is 0 the axes are set up, otherwise kept, and every axis is within its bounds |
| ClientUdp.Oscillator.Tick | src/test_client/udp.c:599 | run_count grows by one modulo 2^32 and nothing else changes |
| ClientUdp.Oscillator.TurnAxis | src/test_client/udp.c:554-569 | axis k is turned in place and nothing else changes |
| ClientUdp.ReportAxis | src/test_client/udp.c:553-580 | axis k is turned after the axes before it and its position message appended |
| ClientUdp.TimingFirst | src/test_client/udp.c:544-550 | the timing message with run_count and the clock is always stored first |
| ClientUdp.ReportAxes | src/test_client/udp.c:553-580 | every axis is turned once, stays within bounds, and the positions are packed in axis order |
| ClientUdp.PopulateDataLoop | src/test_client/udp.c:499-602 | the first call sets the axes up; the packet is the timing message followed by every turned axis's position, 60 bytes, and run_count grows by one |
| SimpleUdp.KindsOfSetLabels | src/test_client/simple_udp.c:49-86 | with distinct message codes every set-message code reaches its own case of serialize_data's switch |
| SimpleUdp.KindsOfGetLabels | src/test_client/simple_udp.c:87-103 | with distinct message codes every get-message code reaches its own case |
| SimpleUdp.MessageFor | src/test_client/simple_udp.c:48-107 | serialize_data refuses exactly the types it does not know; otherwise the struct is the first one, two or three values as they are, one word for MSG_GET_GLOBAL_CONFIG, two for the update rate and the two get-axis messages, three for the others |
| SimpleUdp.Serialize | src/test_client/simple_udp.c:36-118 | a stored message is the one MessageFor builds, copied at the byte offset, which moves past it, while the space left stays where it was; the exits are an unknown type, a copy past the packet's end and no space |
| SimpleUdp.PositionStored | src/test_client/simple_udp.c:55-62 | a position message within the packet is stored as three words and the space left does not change |
| SimpleUdp.SpeedsFit | src/test_client/simple_udp.c:174-177 | the init block stores one speed per axis and no more |
| SimpleUdp.ReportAxis | src/test_client/simple_udp.c:194-219 | axis k is turned after the axes before it and its position message, 12 bytes, is appended to theirs |
| SimpleUdp.ReportAxes | src/test_client/simple_udp.c:194-219 | every axis is turned once, stays within bounds, and the four positions are packed in axis order, 48 bytes |
| SimpleUdp.PopulateDataLoop | src/test_client/simple_udp.c:157-245 | the first call sets the axes up; the packet is every turned axis's position, 48 bytes, and run_count grows by one |

## Left out

- Sockets, the W5x00 UDP code and every `main` are input and output and are not modelled. This covers init_eth, send_data and get_reply_non_block in src/driver/rp2040_network.c, get_reply*, send_data and display_rx_data in the test clients, and simple_udp.c's main. Received bytes are parameters.
- The serialize_* helpers of src/driver/rp2040_network.c (lines 104-240) only pack fixed records through pack_nw_buff and are not modelled. serialize_gpio and everything process_data calls are modelled.
- Float parts are not modelled, because the model has no floating-point type. This covers get_velocity and the kp product in src/rp2040/pio.c, the joint scaling and spindle rpm of the driver's unpack_* functions, and the float frequencies and sentinels of the modbus loops. The requested frequency is an integer input, and floats travel as their raw bits.
- The kp product of pid in sender/pio.c is taken in exact real arithmetic (SenderPio.PidVelocity), so the rounding of C doubles is not modelled.
- Clocks, the busy waits of the test clients' loops, usleep and the timing printout are not modelled. The clock reading is a parameter.
- sampleNormal and rand in test_client/udp.c are not modelled. The random kicks are a parameter.
- Opening and closing the FIFOs, mkfifo and the SIGPIPE setting (log_data_init) are not modelled. Whether fopen or open succeeds is a parameter.
- In log_data_write, fwrite is taken to write all 10 bytes, since a partial write is not modelled.
- The interactive input of test_client/udp.c (populate_data, populate_message*, get_property_uint/int) and of src/test_client/udp.c (populate_data, populate_message*, get_property_*) is not modelled. The interactive client that is modelled is test_client/udp_v0.2.c, whose prompt loop and message copies these repeat.
- The oneshot and loop of src/test_client/udp.c do not model the log_data_write calls that serialize_data makes for position messages. The log frames themselves are modelled by ClientUdp.LogWriter.
- initialize_rp, display_data and display_reply of src/test_client/udp.c are not modelled. initialize_rp packs twelve fixed set-up messages (IO_STEP, IO_DIR and ENABLED for each axis) through serialize_data and returns their size. display_data prints the messages and exits. display_reply prints the replies and also writes log frames through log_data_write: two for REPLY_AXIS_CONFIG (src/test_client/udp.c:720-721), and one for REPLY_AXIS_POS (:733), which logs the stale fields of the last reply_axis_config rather than those of the position reply.
- The printing parts of every display_* function are not modelled. What they would print is returned as a list of messages.
- Message codes that no shown header defines are a parameter of each model that uses them, with the requirement that the case labels differ. Affected are core0.c, the driver's REPLY_* codes, the src test clients and the sender. Struct sizes of core0.c's messages are a parameter too.
- Some struct layouts that no shown header defines are fixed by assumption rather than taken as parameters. DriverNetwork.Size fixes every reply at a 4-byte type word plus 4 bytes per field. ClientUdp.Words and the SimpleUdp messages lay each Message_uint* struct out as one to three packed 32-bit words, since src/shared/messages.h does not show them.
- Code the model calls but does not see is given an assumed contract. The 6-byte frames of modbus_read_holding_registers and modbus_write_holding_register are assumed (ModbusRtu.AccessFrame). So are modbus_get_data, modbus_check_config, modbus_check_receive, modbus_transmit and the outstanding-request flag. pack_nw_buff and unpack_nw_buff, called by src/driver/rp2040_network.c (and pack_nw_buff also by src/rp2040/gpio.c and config.c) but not shown, are assumed to behave like packNWBuff and unPackNWBuff of src/shared/buffer.c: pack_nw_buff appends a message of `size` bytes when that many are left and returns 0 otherwise (DriverNetwork.PackEach, RpGpio.Packed, and the `packed` results of the RpConfig.Config serialise_* methods), and unpack_nw_buff hands out the `size` bytes at an offset when they lie within the length, advancing the offset only when asked (DriverNetwork.Step). serialise_metrics, called at src/rp2040/core0.c:94 but not shown, is assumed to behave as src/test/rp_network_tx_test.c:21-59 pins it: it writes a Reply_metrics at tx_buf_len and grows tx_buf_len by its size, unless the reply and a terminating word would not fit (RpCore0.SerialiseMetrics). The seven-argument get_axis_config and update_axis_config that sender/pio.c calls, and the sender/config.c fields that config.h does not declare, are assumed to be plain field reads and writes. The layout of struct Data in process_buffer_machine is assumed to be a count followed by entries of the four fields of Sender.Entry (target, sequence, key, value). The entries are a sequence of any length, so the bound MAX_MACHINE_DATA on received_data.count is not modelled, and MAX_TARGETS is the maxTargets parameter.
- Cross-core concurrency is not modelled: the mutexes in config.c and sender/config.c, core1's tick semaphore, recover_clock's busy wait and core0_main. The model is sequential.
- serialise_axis_movement's wait_for_data spin is modelled with wait_for_data false only.
- HAL registration, PIO and GPIO pin setup (the init_pio functions, pio_utils, stepper_control), all of mcp23017_init (Mcp23017.I2cGpio.Init sets only the slots and the input data, and leaves the engine as it was, without the reset of i2c_engine_init) and the raw I2C register writes are not modelled. Their status flags are inputs.
- The UART reads and writes, the bitrate re-initialisation and the busy-bit checks of the modbus loops are not modelled. The received frame and its length are inputs.
- pico_stepper's set_max_speed and get_max_speed are not modelled, because they divide clock_get_hz(clk_sys), a hardware clock, by the speed.
- Graphing.ParseInt reads optional ASCII white space, an optional sign and ASCII digits only. Python's int() also accepts underscores between digits ("1_000"), non-ASCII decimal digits and Unicode white space; those entries are read as malformed here.
- LegacyClientUdpV02.Property takes each input line as one fgets result. fgets splits a line longer than its buffer into several reads, and that split is not modelled.
- PioHex matches \s and \d against ASCII white space and digits only. Python's re treats str patterns as Unicode, so other white space and digits are not modelled.
- graphing.py: only parse_data is modelled. The plotting and the FIFO reads are left out, and the entries it reads are a parameter.
- ModbusRtu.Received, ModbusRtu.HuanyangOutcome, ModbusFuling.Outcome and ModbusWeiken.Outcome require a received length other than 1. The C code reads before the frame for that length.
- I2cEngine.WithSequenceValid and the engine steps require a well-formed program (every header of non-zero length, within the program), because a zero-length header makes i2c_engine_run misbehave.
- RpConfig.TakeOther requires the core to be CORE0 or CORE1. For any other value get_axis_config returns an uninitialised variable.
- PicoStepper.Target requires a stepper index below 8, since the C arrays have eight entries.
- PicoStepper.StepLenFor requires a difference other than 0 and INT_MIN, since 0 divides by zero and abs(INT_MIN) overflows.
- RpCore0.ReceivedTerminated requires every struct size to be at most 764 bytes. The sizes come from a messages.h that is not shown, so the bound is assumed, not derived.
- RpPio.StepLen is the corrected step length, which divides by the unwrapped divisor, so the divide-by-zero of the Findings does not occur in it.
- The 8-element initialisers of sender/config.c against MAX_AXIS 4 are modelled for the four axes that fit.

## Findings

| source | as written | input that shows it | evidently intended | confidence | as-written member | corrected member |
|---|---|---|---|---|---|---|
| src/shared/buffer.c:12 | packNWBuff adds the checksum of a whole 256-byte window read from new_data, because checksum ignores its length argument | pack the byte 1 into an empty buffer when the next byte in memory is 7: the stored checksum is 1 + 7·256, but checkNWBuff sums the payload to 1 and rejects the buffer | the checksum covers only the new_data_len bytes packed, so checkNWBuff accepts every buffer packNWBuff built | not executed | NetBufferIntended.PackChecksumMismatch | NetBufferIntended.IntendedPackKeepsCheck |
| src/rp2040/pio.c:148-151 | the divisor requested_step_count * 2 is computed in 32 bits | velocity_requested = INT32_MIN: the step count is 2^31 and the divisor wraps to 0, so divRoundClosest divides by zero | the divisor is twice the step count without wrap, which is never zero for a non-zero count | not executed | RpPio.MinVelocityDividesByZero | RpPio.StepLenBounds |
| src/test_client/udp.c:384 | `packet_space -= message_size` moves the local pointer, so *packet_space never shrinks and the space check never fails | the line "4,4,...,4" with 86 positions: the 86th copy starts at word 255 and writes past the 256-word packet | `*packet_space -= message_size`, with the check made before the copy | not executed | ClientUdp.PositionsOverflow | ClientUdp.PopulateDataOneshot |
| src/test_client/udp.c:437-443 | a refused line clears BUFSIZE bytes from `packet`, which serialize_data has already moved past the messages stored | "4:0:10, x": one three-word position is stored, so the clear starts at word 3 and runs 3 words past the packet | the clear starts at the start of the packet | not executed | ClientUdp.RefusedAfterPosition | ClientUdp.PopulateDataOneshot |
| src/test_client/udp.c:517-528 | the init block stores six speeds and destinations into arrays of MAX_AXIS = 4 elements | the store axis_speed[4] = 10000 at line 521 is past the end of axis_speed | one speed and one destination per axis, as simple_udp.c does | not executed | ClientUdp.SpeedsOverflow | ClientUdp.Oscillator.Start |
| test_client/udp.c:248 | `packet_space -= message_size` moves the local pointer, so *packet_space never shrinks and the space check never fails | the line "7,7,...,7" with 257 bare type-7 messages: the 257th copy is past the 256-word packet | `*packet_space -= message_size` | not executed | LegacyClientUdp.StoreOverflows | LegacyClientUdp.Packet.StoreMessage |
| test_client/udp.c:303-309 | a refused line clears BUFSIZE bytes from `packet`, which store_message has already moved past the messages stored | "3:0:10, x": three words are stored, so the clear starts at word 3 and runs past the packet | the clear starts at the start of the packet | not executed | LegacyClientUdp.RefusedAfterMessage | LegacyClientUdp.Packet.PopulateDataOneshot |
