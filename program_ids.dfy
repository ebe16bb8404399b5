/** The programs the core refers to by id (`spl_token::id()`,
    `spl_token_2022::id()` / `token_2022::ID`, and the system program that
    owns every account no program has claimed), as their 32 raw bytes. */
module ProgramIds {
  import opened Bytes

  /** TokenkegQfeZyiNwAJbNbGKPFXCWuBvf9Ss623VQ5DA */
  const TOKEN_PROGRAM_ID: Pubkey :=
    [6, 221, 246, 225, 215, 101, 161, 147, 217, 203, 225, 70, 206, 235, 121, 172,
     28, 180, 133, 237, 95, 91, 55, 145, 58, 140, 245, 133, 126, 255, 0, 169]

  /** TokenzQdBNbLqP5VEhdkAS6EPFLC1PHnBqCXEpPxuEb */
  const TOKEN_2022_PROGRAM_ID: Pubkey :=
    [6, 221, 246, 225, 238, 117, 143, 222, 24, 66, 93, 188, 228, 108, 205, 218,
     182, 26, 252, 77, 131, 185, 13, 39, 254, 189, 249, 40, 216, 161, 139, 252]

  /** 11111111111111111111111111111111 */
  const SYSTEM_PROGRAM_ID: Pubkey :=
    [0, 0, 0, 0, 0, 0, 0, 0, 0, 0, 0, 0, 0, 0, 0, 0,
     0, 0, 0, 0, 0, 0, 0, 0, 0, 0, 0, 0, 0, 0, 0, 0]
}
